/**
 The login as the server sees it: which question of the login stands open after which events, and what each answer
 makes the client write. Above all, on a connection with explicit TLS no name and no password is written before the
 handshake of the control channel, unless the server has refused AUTH.
 */
module FtpCredentials {
  import opened Wrappers
  import opened Bytes
  import opened FtpModel
  import opened FtpInvariant
  import opened FtpHistory
  import opened FtpWire

  /**
   What the login waits for: the connection, the greeting, the answer to AUTH, the handshake, the answer to USER or to
   PASS; more of AUTH, which the client never gives; or nothing any more. `failed`: a login has failed, and the queue
   moves with the next call.
   */
  datatype Awaits =
    | Connection | Greeting | AnswerToAuth | Handshaken | MoreOfAuth
    | AnswerToUser(failed: bool) | AnswerToPass(failed: bool) | NoAnswer

  /** The class of the reply that the event is. */
  predicate Is(e: Event, digit: char) {
    e.Reply? && Code(e.msg) == digit
  }

  /** From the events alone: what the login waits for after one more. */
  function Next(tls: TLS, w: Awaits, e: Event): Awaits {
    match w
    case Connection => if e.Connect? then Greeting else w
    case Greeting => if !Is(e, '2') then w else if tls == Yes then AnswerToAuth else AnswerToUser(false)
    case AnswerToAuth =>
      if Is(e, '2') then Handshaken
      else if Is(e, '3') then MoreOfAuth
      else if Is(e, '4') || Is(e, '5') then AnswerToUser(false)
      else w
    case Handshaken => if e.ControlHandshake? then AnswerToUser(false) else w
    case MoreOfAuth => w
    case AnswerToUser(failed) =>
      if Is(e, '2') || (e.Api? && failed) then NoAnswer else if Is(e, '3') then AnswerToPass(failed) else w
    case AnswerToPass(failed) =>
      if Is(e, '1') || Is(e, '4') || Is(e, '5') then AnswerToUser(true)
      else if Is(e, '2') || Is(e, '3') || (e.Api? && failed) then NoAnswer
      else w
    case NoAnswer => w
  }

  function Waits(tls: TLS, es: seq<Event>): Awaits {
    if es == [] then Connection else Next(tls, Waits(tls, es[..|es| - 1]), es[|es| - 1])
  }

  /** What the client says when the login, waiting for `w`, sees the event. */
  function Says(config: Config, w: Awaits, e: Event): seq<Request> {
    match Next(config.tls, w, e)
    case AnswerToAuth => if w == Greeting then [Request("AUTH", "TLS")] else []
    case AnswerToUser(_) =>
      if w == Greeting || w == AnswerToAuth || w == Handshaken then [Request("USER", config.user)] else []
    case AnswerToPass(_) => if w.AnswerToUser? then [Request("PASS", config.pass)] else []
    case NoAnswer => if w.AnswerToPass? && Is(e, '3') then [Request("ACCT", "")] else []
    case _ => []
  }

  function Said(config: Config, es: seq<Event>): seq<Request> {
    if es == [] then []
    else
      var before, e := es[..|es| - 1], es[|es| - 1];
      Said(config, before) + Says(config, Waits(config.tls, before), e)
  }

  /** The engine stands where the login waits. */
  predicate Stands(s: Ftp, w: Awaits) {
    match w
    case Connection => s.ctl.state == Connecting && s.ctl.inProgress
    case Greeting => s.ctl.state == Connected && s.ctl.inProgress
    case AnswerToAuth => s.ctl.state == Auth && s.ctl.inProgress && s.config.tls == Yes
    case Handshaken => s.ctl.state == Tls && s.ctl.inProgress && s.config.tls == Yes
    case MoreOfAuth => s.ctl.state == Adat && s.ctl.inProgress
    case AnswerToUser(failed) => s.ctl.state == User && s.ctl.inProgress == !failed
    case AnswerToPass(failed) => s.ctl.state == Pass && s.ctl.inProgress == !failed
    case NoAnswer => Behind(s.ctl.state)
  }

  /** The states from which the login is never taken up again. */
  predicate Behind(state: PState) {
    state in {Acct, Ready, Pasv, Data, Mark, Final, Gen}
  }

  // -------- Steps --------

  lemma SkipStaysBehind(s: Ftp, count: nat)
    requires Behind(s.ctl.state)
    ensures Behind(SkipCommand(s, count).ctl.state)
  {
  }

  lemma DataResponseStaysBehind(s: Ftp, code: char)
    requires Behind(s.ctl.state)
    ensures Behind(ProcessDataCmdResponse(s, code).ctl.state)
  {
    if code == '1' {
      assert InitializeFileDevice(s).ctl == s.ctl;
    } else {
      SkipStaysBehind(s, 1);
      SkipStaysBehind(ResetDevices(s), 1);
    }
  }

  lemma ReplyStaysBehind(s: Ftp, msg: seq<byte>)
    requires Behind(s.ctl.state)
    ensures Behind(OnReply(s, msg).ctl.state) && Sends(s, OnReply(s, msg))
  {
    if !s.fault && Rule(s.ctl.state, Code(msg)).Some? {
      var (to, action) := Rule(s.ctl.state, Code(msg)).value;
      var s1 := To(s, to);
      ActSends(s1, action, msg);
      match action
      case SkipTwo => SkipStaysBehind(s1, 2);
      case PasvResponse => SkipStaysBehind(s1, 1);
      case DataResponse(code) => DataResponseStaysBehind(s1, code);
      case GenResponse =>
        if s1.ctl.q != [] {
          SkipStaysBehind(NoteAnswer(RunResponse(s1, s1.ctl.q[0], msg), msg), 1);
        }
      case _ =>
    }
  }

  lemma StepStaysBehind(s: Ftp, e: Event)
    requires Behind(s.ctl.state) && Possible(s, e)
    ensures Behind(Step(s, e).ctl.state) && Sends(s, Step(s, e))
  {
    match e
    case Reply(msg) => ReplyStaysBehind(s, msg);
    case DataClosed =>
      OtherSends(s, e);
      if s.ctl.q != [] {
        DataResponseStaysBehind(NotifyEnd(s, s.ctl.q[0]), '0');
      }
    case _ => OtherSends(s, e);
  }

  /** From `s` to `r` the login has moved, and the client has written what it says. */
  ghost predicate Follows(s: Ftp, r: Ftp, w: Awaits, e: Event) {
    && Stands(r, Next(s.config.tls, w, e))
    && LoginLines(r.talk.wire) == LoginLines(s.talk.wire) + Says(s.config, w, e)
  }

  lemma NothingSaid(s: Ftp, r: Ftp, w: Awaits, e: Event)
    requires Stands(r, Next(s.config.tls, w, e)) && Says(s.config, w, e) == []
    requires LoginLines(r.talk.wire) == LoginLines(s.talk.wire)
    ensures Follows(s, r, w, e)
  {
  }

  lemma LineSaid(s: Ftp, r: Ftp, w: Awaits, e: Event, word: string, arg: string)
    requires Stands(r, Next(s.config.tls, w, e)) && Says(s.config, w, e) == [Request(word, arg)]
    requires LoginWord(word) && ' ' !in word && r.talk.wire == s.talk.wire + [Line(word, arg)]
    ensures Follows(s, r, w, e)
  {
    LoginLineReads(s.talk.wire, word, arg);
  }

  // What a reply comes to, where the login waits for one.

  lemma GreetingReply(s: Ftp, msg: seq<byte>)
    requires !s.fault && s.ctl.state == Connected
    ensures OnReply(s, msg)
            == if Code(msg) != '2' then s
               else if s.config.tls == Yes then Write(To(s, Auth), Line("AUTH", "TLS"))
               else Write(To(s, User), Line("USER", s.config.user))
  {
  }

  lemma AuthReply(s: Ftp, msg: seq<byte>)
    requires !s.fault && s.ctl.state == Auth
    ensures OnReply(s, msg)
            == match Code(msg)
               case '2' => To(s, Tls)
               case '3' => To(s, Adat)
               case '4' => Write(To(s, User), Line("USER", s.config.user))
               case '5' => Write(To(s, User), Line("USER", s.config.user))
               case _ => s
  {
  }

  lemma UserReply(s: Ftp, msg: seq<byte>)
    requires !s.fault && s.ctl.state == User
    ensures OnReply(s, msg)
            == match Code(msg)
               case '2' => To(s, Ready)
               case '3' => Write(To(s, Pass), Line("PASS", s.config.pass))
               case _ => s
  {
  }

  lemma AcctReply(s: Ftp, msg: seq<byte>)
    requires !s.fault && s.ctl.state == Pass && Code(msg) == '3'
    ensures OnReply(s, msg) == Write(To(s, Acct), Line("ACCT", ""))
  {
  }

  lemma GreetingAnswers(s: Ftp, r: Ftp, e: Event)
    requires e.Reply? && Stands(s, Greeting)
    requires r == if Code(e.msg) != '2' then s
                  else if s.config.tls == Yes then Write(To(s, Auth), Line("AUTH", "TLS"))
                  else Write(To(s, User), Line("USER", s.config.user))
    ensures Follows(s, r, Greeting, e)
  {
    if Code(e.msg) != '2' {
      NothingSaid(s, r, Greeting, e);
    } else if s.config.tls == Yes {
      LineSaid(s, r, Greeting, e, "AUTH", "TLS");
    } else {
      LineSaid(s, r, Greeting, e, "USER", s.config.user);
    }
  }

  lemma AuthAnswers(s: Ftp, r: Ftp, e: Event)
    requires e.Reply? && Stands(s, AnswerToAuth)
    requires r == match Code(e.msg)
                  case '2' => To(s, Tls)
                  case '3' => To(s, Adat)
                  case '4' => Write(To(s, User), Line("USER", s.config.user))
                  case '5' => Write(To(s, User), Line("USER", s.config.user))
                  case _ => s
    ensures Follows(s, r, AnswerToAuth, e)
  {
    if Code(e.msg) == '4' || Code(e.msg) == '5' {
      LineSaid(s, r, AnswerToAuth, e, "USER", s.config.user);
    } else {
      NothingSaid(s, r, AnswerToAuth, e);
    }
  }

  lemma UserAnswers(s: Ftp, r: Ftp, failed: bool, e: Event)
    requires e.Reply? && Stands(s, AnswerToUser(failed))
    requires r == match Code(e.msg)
                  case '2' => To(s, Ready)
                  case '3' => Write(To(s, Pass), Line("PASS", s.config.pass))
                  case _ => s
    ensures Follows(s, r, AnswerToUser(failed), e)
  {
    if Code(e.msg) == '3' {
      LineSaid(s, r, AnswerToUser(failed), e, "PASS", s.config.pass);
    } else {
      NothingSaid(s, r, AnswerToUser(failed), e);
    }
  }

  lemma LoginEventSends(s: Ftp, good: bool)
    ensures Sends(s, LoginEvent(s, good))
    ensures good && s.ctl.state == Ready ==> Behind(LoginEvent(s, good).ctl.state)
    ensures !good ==> LoginEvent(s, good).ctl.state == s.ctl.state && !LoginEvent(s, good).ctl.inProgress
  {
  }

  /** A decided login writes at most the first command of the queue. */
  lemma DecidedAnswers(s: Ftp, r: Ftp, failed: bool, e: Event)
    requires e.Reply? && Spelled(s) && Stands(s, AnswerToPass(failed)) && Code(e.msg) in {'1', '2', '4', '5'}
    requires r == LoginEvent(To(s, if Code(e.msg) == '2' then Ready else User), Code(e.msg) == '2')
    ensures Follows(s, r, AnswerToPass(failed), e)
  {
    var s1 := To(s, if Code(e.msg) == '2' then Ready else User);
    LoginEventSends(s1, Code(e.msg) == '2');
    SentIsSpelled(s1, r);
    NothingSaid(s, r, AnswerToPass(failed), e);
  }

  lemma PassAnswers(s: Ftp, failed: bool, msg: seq<byte>)
    requires !s.fault && Spelled(s) && Stands(s, AnswerToPass(failed))
    ensures Follows(s, OnReply(s, msg), AnswerToPass(failed), Reply(msg))
  {
    var r, e := OnReply(s, msg), Reply(msg);
    if Code(msg) in {'1', '2', '4', '5'} {
      LoginReply(s, msg);
      DecidedAnswers(s, r, failed, e);
    } else if Code(msg) == '3' {
      AcctReply(s, msg);
      LineSaid(s, r, AnswerToPass(failed), e, "ACCT", "");
    } else {
      IgnoredReply(s, msg);
      NothingSaid(s, r, AnswerToPass(failed), e);
    }
  }

  /** Where nothing is waited for that a reply could be. */
  lemma UnheardAnswers(s: Ftp, w: Awaits, msg: seq<byte>)
    requires Stands(s, w) && (w == Connection || w == Handshaken || w == MoreOfAuth)
    ensures Follows(s, OnReply(s, msg), w, Reply(msg))
  {
    IgnoredReply(s, msg);
    NothingSaid(s, s, w, Reply(msg));
  }

  lemma ReplyFollows(s: Ftp, w: Awaits, msg: seq<byte>)
    requires !s.fault && Spelled(s) && Stands(s, w)
    ensures Follows(s, OnReply(s, msg), w, Reply(msg))
  {
    var r, e := OnReply(s, msg), Reply(msg);
    match w
    case Greeting =>
      GreetingReply(s, msg);
      GreetingAnswers(s, r, e);
    case AnswerToAuth =>
      AuthReply(s, msg);
      AuthAnswers(s, r, e);
    case AnswerToUser(failed) =>
      UserReply(s, msg);
      UserAnswers(s, r, failed, e);
    case AnswerToPass(failed) => PassAnswers(s, failed, msg);
    case NoAnswer =>
      ReplyStaysBehind(s, msg);
      SentIsSpelled(s, r);
      NothingSaid(s, r, w, e);
    case _ => UnheardAnswers(s, w, msg);
  }

  /** A call sends nothing of the login; after a failed one it moves the queue, and the login is over. */
  lemma CallLogin(s: Ftp, w: Awaits, call: Call)
    requires Sound(s) && Stands(s, w) && ValidCall(call)
    ensures Stands(OnCall(s, call), Next(s.config.tls, w, Api(call)))
  {
    CommandsNotEmpty(s.config.tls, call);
    assert Append(s, call).ctl.state == s.ctl.state && Append(s, call).ctl.inProgress == s.ctl.inProgress;
  }

  lemma OtherLogin(s: Ftp, w: Awaits, e: Event)
    requires Sound(s) && Stands(s, w) && Possible(s, e) && !e.Reply? && !e.ControlHandshake?
    ensures Stands(Step(s, e), Next(s.config.tls, w, e)) && Says(s.config, w, e) == []
  {
    match e
    case Api(call) => CallLogin(s, w, call);
    case Connect =>
    case DataClosed => StepStaysBehind(s, e);
    case _ => DeviceFrame(s, e);
  }

  lemma OtherWrites(s: Ftp, e: Event)
    requires Spelled(s) && !e.Reply? && !e.ControlHandshake?
    ensures LoginLines(Step(s, e).talk.wire) == LoginLines(s.talk.wire)
  {
    OtherSends(s, e);
    SentIsSpelled(s, Step(s, e));
  }

  lemma HandshakeFollows(s: Ftp, w: Awaits)
    requires !s.fault && Stands(s, w) && Possible(s, ControlHandshake)
    ensures Follows(s, Step(s, ControlHandshake), w, ControlHandshake)
  {
    LineSaid(s, Step(s, ControlHandshake), w, ControlHandshake, "USER", s.config.user);
  }

  /** One event moves the engine as it moves the login, and makes it write what the login says. */
  lemma StepFollows(s: Ftp, w: Awaits, e: Event)
    requires Sound(s) && Spelled(s) && Stands(s, w) && Possible(s, e)
    ensures Follows(s, Step(s, e), w, e)
  {
    if e.Reply? {
      ReplyFollows(s, w, e.msg);
    } else if e.ControlHandshake? {
      HandshakeFollows(s, w);
    } else {
      OtherLogin(s, w, e);
      OtherWrites(s, e);
      NothingSaid(s, Step(s, e), w, e);
    }
  }

  lemma HandshakeIsWaitedFor(s: Ftp, w: Awaits, e: Event)
    requires Stands(s, w) && Possible(s, e) && e.ControlHandshake?
    ensures w == Handshaken
  {
  }

  // -------- Runs --------

  /** Over every run that has not faulted the lines of the login are those the events call for, in order. */
  lemma {:induction false} LoginIsAsSaid(config: Config, disk: map<string, seq<byte>>, es: seq<Event>)
    requires LiveRun(Init(config, disk), es)
    ensures var s := Run(Init(config, disk), es);
            && Sound(s) && Spelled(s) && s.config == config
            && Stands(s, Waits(config.tls, es)) && LoginLines(s.talk.wire) == Said(config, es)
    decreases |es|
  {
    if es != [] {
      var before, e := es[..|es| - 1], es[|es| - 1];
      var s := Run(Init(config, disk), before);
      LiveBefore(Init(config, disk), es);
      LoginIsAsSaid(config, disk, before);
      StepSound(s, e);
      StepSpelled(s, e);
      StepFollows(s, Waits(config.tls, before), e);
      StepCalls(s, e);
    }
  }

  /** A name, a password or an account is on the wire. */
  predicate NamesUser(lines: seq<Request>) {
    exists i :: 0 <= i < |lines| && lines[i].word in ["USER", "PASS", "ACCT"]
  }

  /** The control channel's handshake has been done, or the server has refused AUTH. */
  predicate Released(tls: TLS, es: seq<Event>) {
    es != [] && (Released(tls, es[..|es| - 1]) || Releases(Waits(tls, es[..|es| - 1]), es[|es| - 1]))
  }

  predicate Releases(w: Awaits, e: Event) {
    e.ControlHandshake? || (w == AnswerToAuth && (Is(e, '4') || Is(e, '5')))
  }

  lemma NamesOneMore(lines: seq<Request>, more: seq<Request>)
    requires |more| <= 1
    ensures NamesUser(lines + more) <==> NamesUser(lines) || (more != [] && more[0].word in ["USER", "PASS", "ACCT"])
  {
    var all := lines + more;
    if NamesUser(lines) {
      var i :| 0 <= i < |lines| && lines[i].word in ["USER", "PASS", "ACCT"];
      assert all[i] == lines[i];
    } else if more != [] && more[0].word in ["USER", "PASS", "ACCT"] {
      assert all[|lines|] == more[0];
    }
  }

  /** The handshake comes when it is waited for. */
  ghost predicate HandshakesInPlace(es: seq<Event>) {
    forall k :: 0 <= k < |es| && es[k].ControlHandshake? ==> Waits(Yes, es[..k]) == Handshaken
  }

  lemma InPlaceBefore(es: seq<Event>)
    requires es != [] && HandshakesInPlace(es)
    ensures HandshakesInPlace(es[..|es| - 1])
    ensures es[|es| - 1].ControlHandshake? ==> Waits(Yes, es[..|es| - 1]) == Handshaken
  {
    var before := es[..|es| - 1];
    forall k | 0 <= k < |before| && before[k].ControlHandshake? ensures Waits(Yes, before[..k]) == Handshaken {
      assert before[..k] == es[..k];
    }
  }

  lemma InPlaceAfter(es: seq<Event>)
    requires es != [] && HandshakesInPlace(es[..|es| - 1])
    requires es[|es| - 1].ControlHandshake? ==> Waits(Yes, es[..|es| - 1]) == Handshaken
    ensures HandshakesInPlace(es)
  {
    var before := es[..|es| - 1];
    forall k | 0 <= k < |es| && es[k].ControlHandshake? ensures Waits(Yes, es[..k]) == Handshaken {
      if k < |before| {
        assert before[..k] == es[..k] && before[k] == es[k];
      }
    }
  }

  lemma LastInPlace(config: Config, disk: map<string, seq<byte>>, es: seq<Event>, e: Event)
    requires config.tls == Yes && LiveRun(Init(config, disk), es) && Possible(Run(Init(config, disk), es), e)
    ensures e.ControlHandshake? ==> Waits(Yes, es) == Handshaken
  {
    LoginIsAsSaid(config, disk, es);
    if e.ControlHandshake? {
      HandshakeIsWaitedFor(Run(Init(config, disk), es), Waits(Yes, es), e);
    }
  }

  lemma {:induction false} InPlace(config: Config, disk: map<string, seq<byte>>, es: seq<Event>)
    requires config.tls == Yes && LiveRun(Init(config, disk), es)
    ensures HandshakesInPlace(es)
    decreases |es|
  {
    if es != [] {
      LiveBefore(Init(config, disk), es);
      InPlace(config, disk, es[..|es| - 1]);
      LastInPlace(config, disk, es[..|es| - 1], es[|es| - 1]);
      InPlaceAfter(es);
    }
  }

  /** What has been said while nothing has released the login. */
  predicate Held(w: Awaits, lines: seq<Request>) {
    match w
    case Connection => lines == []
    case Greeting => lines == []
    case AnswerToAuth => lines == [Request("AUTH", "TLS")]
    case Handshaken => lines == [Request("AUTH", "TLS")]
    case MoreOfAuth => lines == [Request("AUTH", "TLS")]
    case _ => false
  }

  lemma HeldOne(config: Config, w: Awaits, lines: seq<Request>, e: Event)
    requires config.tls == Yes && Held(w, lines) && (e.ControlHandshake? ==> w == Handshaken)
    ensures var more := Says(config, w, e);
            && (Releases(w, e) <==> more != [] && more[0].word in ["USER", "PASS", "ACCT"])
            && (!Releases(w, e) ==> Held(Next(Yes, w, e), lines + more))
  {
    assert lines + [] == lines;
  }

  lemma {:induction false} SaidIffReleased(config: Config, es: seq<Event>)
    requires config.tls == Yes && HandshakesInPlace(es)
    ensures NamesUser(Said(config, es)) <==> Released(Yes, es)
    ensures !Released(Yes, es) ==> Held(Waits(Yes, es), Said(config, es))
    decreases |es|
  {
    if es != [] {
      var before, e := es[..|es| - 1], es[|es| - 1];
      InPlaceBefore(es);
      SaidIffReleased(config, before);
      NamesOneMore(Said(config, before), Says(config, Waits(Yes, before), e));
      if !Released(Yes, before) {
        HeldOne(config, Waits(Yes, before), Said(config, before), e);
      }
    }
  }

  lemma {:induction false} WireIsBoth(wire: seq<string>)
    ensures |SessionLines(wire)| + |LoginLines(wire)| == |wire|
    ensures SessionLines(wire) == [] ==>
              forall i :: 0 <= i < |wire| ==> ReadLine(wire[i]) == Some(LoginLines(wire)[i])
  {
    if wire != [] {
      WireIsBoth(wire[..|wire| - 1]);
    }
  }

  /** Before the login is released nothing has been sent from the queue. */
  lemma HeldSendsNothing(config: Config, disk: map<string, seq<byte>>, es: seq<Event>)
    requires config.tls == Yes && LiveRun(Init(config, disk), es) && !Released(Yes, es)
    ensures SessionLines(Run(Init(config, disk), es).talk.wire) == []
  {
    InPlace(config, disk, es);
    LoginIsAsSaid(config, disk, es);
    SaidIffReleased(config, es);
    RunHistory(config, disk, es);
  }

  /**
   Explicit TLS, over every run that has not faulted: a name, password or account is on the wire if and only if the
   control channel's handshake has been done or the server has refused AUTH with class 4 or 5. Until then the wire
   holds at most one line, which is AUTH TLS.
   */
  lemma CredentialsWaitForTls(config: Config, disk: map<string, seq<byte>>, es: seq<Event>)
    requires config.tls == Yes && LiveRun(Init(config, disk), es)
    ensures var wire := Run(Init(config, disk), es).talk.wire;
            && (NamesUser(LoginLines(wire)) <==> Released(Yes, es))
            && (!Released(Yes, es) ==>
                  |wire| <= 1 && forall line <- wire :: ReadLine(line) == Some(Request("AUTH", "TLS")))
  {
    var wire := Run(Init(config, disk), es).talk.wire;
    InPlace(config, disk, es);
    LoginIsAsSaid(config, disk, es);
    SaidIffReleased(config, es);
    if !Released(Yes, es) {
      HeldSendsNothing(config, disk, es);
      WireIsBoth(wire);
    }
  }

  /**
   Once the server has answered AUTH with class 2 the handshake can end, and its end is the next event that writes: the
   name.
   */
  lemma HandshakeIsNext(config: Config, disk: map<string, seq<byte>>, es: seq<Event>, e: Event)
    requires LiveRun(Init(config, disk), es) && Waits(config.tls, es) == Handshaken
    requires Possible(Run(Init(config, disk), es), e)
    ensures var s := Run(Init(config, disk), es);
            && Possible(s, ControlHandshake)
            && (!e.ControlHandshake? ==> Step(s, e).talk.wire == s.talk.wire)
            && (e.ControlHandshake? ==>
                  && |Step(s, e).talk.wire| == |s.talk.wire| + 1
                  && ReadLine(Step(s, e).talk.wire[|s.talk.wire|]) == Some(Request("USER", config.user)))
  {
    var s := Run(Init(config, disk), es);
    LoginIsAsSaid(config, disk, es);
    match e
    case ControlHandshake => LineReads("USER", config.user);
    case Reply(msg) => IgnoredReply(s, msg);
    case Api(call) => SoundCall(s, call);
    case _ => OtherSends(s, e);
  }

  lemma SaysIff(config: Config, w: Awaits, e: Event)
    requires e.ControlHandshake? ==> w == Handshaken
    ensures var more := Says(config, w, e);
            && |more| <= 1
            && (more != [] && more[0].word == "AUTH" <==> w == Greeting && Is(e, '2') && config.tls == Yes)
            && (more != [] && more[0].word == "USER" <==>
                  || (w == Greeting && Is(e, '2') && config.tls != Yes)
                  || (w == AnswerToAuth && (Is(e, '4') || Is(e, '5'))) || e.ControlHandshake?)
            && (more != [] && more[0].word == "PASS" <==> w.AnswerToUser? && Is(e, '3'))
            && (more != [] && more[0].word == "ACCT" <==> w.AnswerToPass? && Is(e, '3'))
  {
  }

  /** The event makes the client write a line of the login that starts with the word. */
  predicate WritesWord(s: Ftp, e: Event, word: string) {
    var was, now := LoginLines(s.talk.wire), LoginLines(Step(s, e).talk.wire);
    |now| > |was| && now[|was|].word == word
  }

  /**
   Over every run that has not faulted, whatever the TLS mode: the name is written exactly by the greeting of class 2
   if TLS is not explicit, by a refusal of AUTH, or by the end of the control channel's handshake; the password exactly
   by class 3 to the name; the account line exactly by class 3 to the password.
   */
  lemma LoginWritesIff(config: Config, disk: map<string, seq<byte>>, es: seq<Event>, e: Event)
    requires LiveRun(Init(config, disk), es) && Possible(Run(Init(config, disk), es), e)
    ensures var s, w := Run(Init(config, disk), es), Waits(config.tls, es);
            && (WritesWord(s, e, "AUTH") <==> w == Greeting && Is(e, '2') && config.tls == Yes)
            && (WritesWord(s, e, "USER") <==>
                  || (w == Greeting && Is(e, '2') && config.tls != Yes)
                  || (w == AnswerToAuth && (Is(e, '4') || Is(e, '5'))) || e.ControlHandshake?)
            && (WritesWord(s, e, "PASS") <==> w.AnswerToUser? && Is(e, '3'))
            && (WritesWord(s, e, "ACCT") <==> w.AnswerToPass? && Is(e, '3'))
  {
    var s, w := Run(Init(config, disk), es), Waits(config.tls, es);
    LoginIsAsSaid(config, disk, es);
    StepFollows(s, w, e);
    if e.ControlHandshake? {
      HandshakeIsWaitedFor(s, w, e);
    }
    SaysIff(config, w, e);
  }
}
