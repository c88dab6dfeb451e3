/**
 What happened to every command: first in first out, nothing lost but by a failed login, at most one sent and not
 yet retired, nothing skipped but the transfer behind a refused PASV, and every caller answered once, with the reply
 to its own command.
 */
module FtpHistory {
  import opened Wrappers
  import opened Bytes
  import opened FtpAddress
  import opened FtpModel
  import opened FtpInvariant

  function Cmds(gone: seq<Gone>): seq<Cmd> {
    if gone == [] then [] else Cmds(gone[..|gone| - 1]) + [gone[|gone| - 1].cmd]
  }

  /** The commands that left the queue after having been sent. */
  function RetiredCmds(gone: seq<Gone>): seq<Cmd> {
    if gone == [] then []
    else RetiredCmds(gone[..|gone| - 1]) + if gone[|gone| - 1].Retired? then [gone[|gone| - 1].cmd] else []
  }

  function GenCmds(cmds: seq<Cmd>): seq<Cmd> {
    if cmds == [] then []
    else GenCmds(cmds[..|cmds| - 1]) + if IsGen(cmds[|cmds| - 1].verb) then [cmds[|cmds| - 1]] else []
  }

  function AllCommands(tls: TLS, calls: seq<Call>): seq<Cmd> {
    if calls == [] then [] else AllCommands(tls, calls[..|calls| - 1]) + Commands(tls, calls[|calls| - 1])
  }

  /** The response callbacks among all callbacks. */
  function Responses(callbacks: seq<Callback>): seq<Callback> {
    if callbacks == [] then []
    else
      var last := callbacks[|callbacks| - 1];
      Responses(callbacks[..|callbacks| - 1]) + if last.Response? then [last] else []
  }

  /** Each command's caller, where it has one, gets the reply at the command's own position. */
  function Answered(cmds: seq<Cmd>, replies: seq<seq<byte>>): seq<Callback>
    requires |cmds| == |replies|
  {
    if cmds == [] then []
    else
      var n := |cmds| - 1;
      Answered(cmds[..n], replies[..n])
      + match cmds[n].rcbk
        case Caller(id) => [Response(id, replies[n])]
        case _ => []
  }

  /** Only the transfer directly behind a sent PASV is ever skipped. */
  predicate SkipsOk(gone: seq<Gone>) {
    gone != [] ==>
      var before, last := gone[..|gone| - 1], gone[|gone| - 1];
      && SkipsOk(before)
      && (last.Skipped? ==>
            && before != [] && before[|before| - 1].Retired? && before[|before| - 1].cmd.verb == PASV
            && IsTransfer(last.cmd.verb))
  }

  function Outstanding(s: Ftp): seq<Cmd> {
    if InFlight(s) && s.ctl.q != [] then [s.ctl.q[0]] else []
  }

  /**
   First in first out: all that was queued is what was lost, what has gone and what is still queued, in that order;
   and `front` is all that was sent and has not gone.
   */
  predicate Ledger(q: seq<Cmd>, log: Log, front: seq<Cmd>) {
    && log.enqueued == log.lost + Cmds(log.gone) + q
    && log.sent == RetiredCmds(log.gone) + front
    && SkipsOk(log.gone)
  }

  /** The queue was fed by the API calls and by nothing else. */
  predicate Called(tls: TLS, log: Log) {
    log.enqueued == AllCommands(tls, log.calls)
  }

  ghost predicate AnsweredOnce(gone: seq<Gone>, talk: Talk) {
    var cmds := GenCmds(RetiredCmds(gone));
    |talk.answers| == |cmds| && Responses(talk.callbacks) == Answered(cmds, talk.answers)
  }

  ghost predicate History(s: Ftp) {
    && Ledger(s.ctl.q, s.log, Outstanding(s))
    && AnsweredOnce(s.log.gone, s.talk)
    && (s.ctl.inProgress && !InFlight(s) ==> s.log.gone == [] && s.log.lost == [])
  }

  // -------- Appending to the log --------

  lemma DepartStep(gone: seq<Gone>, g: Gone)
    ensures Cmds(gone + [g]) == Cmds(gone) + [g.cmd]
    ensures RetiredCmds(gone + [g]) == if g.Retired? then RetiredCmds(gone) + [g.cmd] else RetiredCmds(gone)
    ensures SkipsOk(gone) && g.Retired? ==> SkipsOk(gone + [g])
    ensures SkipsOk(gone) && gone != [] && gone[|gone| - 1].Retired?
            && gone[|gone| - 1].cmd.verb == PASV && IsTransfer(g.cmd.verb)
            ==> SkipsOk(gone + [g])
  {
    assert (gone + [g])[..|gone|] == gone;
  }

  lemma GenOne(cmds: seq<Cmd>, c: Cmd)
    ensures IsGen(c.verb) ==> GenCmds(cmds + [c]) == GenCmds(cmds) + [c]
    ensures !IsGen(c.verb) ==> GenCmds(cmds + [c]) == GenCmds(cmds)
  {
    assert (cmds + [c])[..|cmds|] == cmds;
  }

  lemma RespondOne(callbacks: seq<Callback>, b: Callback)
    ensures b.Response? ==> Responses(callbacks + [b]) == Responses(callbacks) + [b]
    ensures !b.Response? ==> Responses(callbacks + [b]) == Responses(callbacks)
  {
    assert (callbacks + [b])[..|callbacks|] == callbacks;
  }

  lemma AnswerOne(cmds: seq<Cmd>, replies: seq<seq<byte>>, c: Cmd, msg: seq<byte>)
    requires |cmds| == |replies|
    ensures c.rcbk.Caller? ==>
              Answered(cmds + [c], replies + [msg]) == Answered(cmds, replies) + [Response(c.rcbk.id, msg)]
    ensures !c.rcbk.Caller? ==> Answered(cmds + [c], replies + [msg]) == Answered(cmds, replies)
  {
    assert (cmds + [c])[..|cmds|] == cmds && (replies + [msg])[..|cmds|] == replies;
  }

  /** What popping one command does to the log of departures. */
  lemma DepartOne(gone: seq<Gone>, q: seq<Cmd>)
    requires |q| >= 1
    ensures var g := gone + Departures(q[..1]);
            && Cmds(g) == Cmds(gone) + [q[0]] && RetiredCmds(g) == RetiredCmds(gone) + [q[0]]
            && (SkipsOk(gone) ==> SkipsOk(g))
  {
    assert Departures(q[..1]) == [Retired(q[0])];
    DepartStep(gone, Retired(q[0]));
  }

  /** What popping a PASV together with its transfer does. */
  lemma DepartTwo(gone: seq<Gone>, q: seq<Cmd>)
    requires |q| >= 2 && q[0].verb == PASV && IsTransfer(q[1].verb)
    ensures var g := gone + Departures(q[..2]);
            && Cmds(g) == Cmds(gone) + [q[0]] + [q[1]] && RetiredCmds(g) == RetiredCmds(gone) + [q[0]]
            && (SkipsOk(gone) ==> SkipsOk(g))
  {
    var g1 := gone + [Retired(q[0])];
    assert Departures(q[..2]) == [Retired(q[0]), Skipped(q[1])];
    assert gone + Departures(q[..2]) == g1 + [Skipped(q[1])];
    DepartStep(gone, Retired(q[0]));
    DepartStep(g1, Skipped(q[1]));
  }

  // -------- The steps --------

  /** Sending the next command, when everything sent so far has been retired. */
  lemma NextHistory(s: Ftp)
    requires !s.ctl.inProgress && Ledger(s.ctl.q, s.log, []) && AnsweredOnce(s.log.gone, s.talk)
    ensures History(ProcessNextCmd(s))
  {
    assert s.log.sent + [] == s.log.sent;
    if s.ctl.q != [] {
      assert Outstanding(ProcessNextCmd(s)) == [s.ctl.q[0]];
    }
  }

  /** History is about the queue, the log and what is in flight; nothing else in the state matters. */
  lemma SameHistory(s: Ftp, t: Ftp)
    requires History(s) && t.config == s.config && t.ctl.q == s.ctl.q && t.log == s.log
    requires t.ctl.inProgress == s.ctl.inProgress && InFlight(t) == InFlight(s)
    requires t.talk.answers == s.talk.answers && Responses(t.talk.callbacks) == Responses(s.talk.callbacks)
    ensures History(t)
  {
  }

  lemma MoveOne(a: seq<Cmd>, b: seq<Cmd>, q: seq<Cmd>)
    requires q != []
    ensures a + b + q == a + (b + [q[0]]) + q[1..]
  {
    assert q == [q[0]] + q[1..];
  }

  /** Popping the command in flight settles the ledger. */
  lemma SettleOne(q: seq<Cmd>, log: Log)
    requires q != [] && Ledger(q, log, [q[0]])
    ensures Ledger(q[1..], log.(gone := log.gone + Departures(q[..1])), [])
  {
    DepartOne(log.gone, q);
    MoveOne(log.lost, Cmds(log.gone), q);
  }

  /** So does popping a refused PASV with the transfer behind it. */
  lemma SettleTwo(q: seq<Cmd>, log: Log)
    requires |q| >= 2 && q[0].verb == PASV && IsTransfer(q[1].verb) && Ledger(q, log, [q[0]])
    ensures Ledger(q[2..], log.(gone := log.gone + Departures(q[..2])), [])
  {
    DepartTwo(log.gone, q);
    MoveOne(log.lost, Cmds(log.gone), q);
    MoveOne(log.lost, Cmds(log.gone) + [q[0]], q[1..]);
    assert q[1..][1..] == q[2..];
  }

  lemma PopOneHistory(s: Ftp)
    requires s.ctl.q != [] && !IsGen(s.ctl.q[0].verb)
    requires Ledger(s.ctl.q, s.log, [s.ctl.q[0]]) && AnsweredOnce(s.log.gone, s.talk)
    ensures History(SkipCommand(s, 1))
  {
    SettleOne(s.ctl.q, s.log);
    DepartOne(s.log.gone, s.ctl.q);
    GenOne(RetiredCmds(s.log.gone), s.ctl.q[0]);
    NextHistory(Pop(s, 1));
  }

  lemma PopTwoHistory(s: Ftp)
    requires |s.ctl.q| >= 2 && s.ctl.q[0].verb == PASV && IsTransfer(s.ctl.q[1].verb)
    requires Ledger(s.ctl.q, s.log, [s.ctl.q[0]]) && AnsweredOnce(s.log.gone, s.talk)
    ensures History(SkipCommand(s, 2))
  {
    SettleTwo(s.ctl.q, s.log);
    DepartTwo(s.log.gone, s.ctl.q);
    GenOne(RetiredCmds(s.log.gone), s.ctl.q[0]);
    NextHistory(Pop(s, 2));
  }

  /** Answering the caller and popping the command go together. */
  lemma AnswerSettles(gone: seq<Gone>, q: seq<Cmd>, talk: Talk, msg: seq<byte>, talk': Talk)
    requires q != [] && IsGen(q[0].verb) && AnsweredOnce(gone, talk)
    requires talk' == talk.(
               answers := talk.answers + [msg],
               callbacks := if q[0].rcbk.Caller? then talk.callbacks + [Response(q[0].rcbk.id, msg)]
                            else talk.callbacks)
    ensures AnsweredOnce(gone + Departures(q[..1]), talk')
  {
    var sent := RetiredCmds(gone);
    DepartOne(gone, q);
    GenOne(sent, q[0]);
    AnswerOne(GenCmds(sent), talk.answers, q[0], msg);
    if q[0].rcbk.Caller? {
      RespondOne(talk.callbacks, Response(q[0].rcbk.id, msg));
    }
  }

  /** Retiring a GEN command with its reply. */
  lemma GenHistory(s: Ftp, msg: seq<byte>)
    requires s.ctl.q != [] && IsGen(s.ctl.q[0].verb)
    requires Ledger(s.ctl.q, s.log, [s.ctl.q[0]]) && AnsweredOnce(s.log.gone, s.talk)
    ensures History(ProcessGenCmdEvent(s, msg))
  {
    var s1 := NoteAnswer(RunResponse(s, s.ctl.q[0], msg), msg);
    AnswerSettles(s.log.gone, s.ctl.q, s.talk, msg, s1.talk);
    SettleOne(s.ctl.q, s.log);
    NextHistory(Pop(s1, 1));
  }

  lemma AcceptedPasvHistory(s: Ftp, msg: seq<byte>)
    requires s.ctl.q != [] && s.ctl.q[0].verb == PASV && HasAddress(msg)
    requires Ledger(s.ctl.q, s.log, [s.ctl.q[0]]) && AnsweredOnce(s.log.gone, s.talk)
    ensures History(ProcessPasvResponse(s, msg))
  {
    PopOneHistory(s);
    if !SkipCommand(s, 1).fault {
      SameHistory(SkipCommand(s, 1), OpenDataChannel(SkipCommand(s, 1), ReadAddress(msg).value));
    }
  }

  lemma PasvAcceptedHistory(s: Ftp, msg: seq<byte>)
    requires !s.fault && s.ctl.inProgress && s.ctl.state == Pasv && Code(msg) == '2' && HasAddress(msg) && History(s)
    requires s.ctl.q != [] && s.ctl.q[0].verb == PASV
    ensures History(OnReply(s, msg))
  {
    AcceptedPasvHistory(To(s, Data), msg);
    PasvAccepted(s, msg);
  }

  lemma PasvSkippedHistory(s: Ftp, msg: seq<byte>)
    requires !s.fault && s.ctl.inProgress && s.ctl.state == Pasv && Code(msg) in {'1', '4', '5'} && History(s)
    requires |s.ctl.q| >= 2 && s.ctl.q[0].verb == PASV && IsTransfer(s.ctl.q[1].verb)
    ensures History(OnReply(s, msg))
  {
    var to := if Code(msg) == '1' then Data else Ready;
    PopTwoHistory(To(s, to));
    PasvSkipped(s, msg);
  }

  lemma PreliminaryHistory(s: Ftp, msg: seq<byte>)
    requires !s.fault && s.ctl.inProgress && s.ctl.state == Data && Code(msg) == '1' && s.ctl.q != [] && History(s)
    ensures History(OnReply(s, msg))
  {
    PreliminaryFrame(To(s, Mark));
    SameHistory(s, ProcessDataCmdResponse(To(s, Mark), '1'));
    PreliminaryReply(s, msg);
  }

  lemma CompletionHistory(s: Ftp, msg: seq<byte>)
    requires !s.fault && s.ctl.inProgress && s.ctl.state == Mark && Code(msg) == '2' && History(s)
    requires s.ctl.q != [] && IsTransfer(s.ctl.q[0].verb)
    ensures History(OnReply(s, msg))
  {
    var r := if s.xfer.dataChannel.None? then SkipCommand(To(s, Final), 1) else To(s, Final);
    if s.xfer.dataChannel.None? {
      PopOneHistory(To(s, Final));
    } else {
      SameHistory(s, r);
    }
    CompletionReply(s, msg);
  }

  /** A transfer refused or broken off. */
  lemma BrokenOffHistory(s: Ftp, msg: seq<byte>)
    requires !s.fault && s.ctl.inProgress && s.ctl.state in {Data, Mark} && History(s)
    requires Code(msg) == '4' || (Code(msg) == '5' && s.ctl.state == Data)
    requires s.ctl.q != [] && IsTransfer(s.ctl.q[0].verb)
    ensures History(OnReply(s, msg))
  {
    PopOneHistory(ResetDevices(To(s, Final)));
    BreakOffReply(s, msg);
  }

  lemma GenReplyHistory(s: Ftp, msg: seq<byte>)
    requires !s.fault && s.ctl.inProgress && s.ctl.state == Gen && '1' <= Code(msg) <= '5' && History(s)
    requires s.ctl.q != [] && IsGen(s.ctl.q[0].verb)
    ensures History(OnReply(s, msg))
  {
    GenHistory(To(s, Ready), msg);
    GenReply(s, msg);
  }

  lemma ReplyHistory(s: Ftp, msg: seq<byte>)
    requires Sound(s) && History(s) && InFlight(s) && !OnReply(s, msg).fault
    ensures History(OnReply(s, msg))
  {
    var code := Code(msg);
    if Rule(s.ctl.state, code).None? {
      IgnoredReply(s, msg);
    } else if s.ctl.state == Gen {
      GenReplyHistory(s, msg);
    } else if s.ctl.state == Pasv {
      if code == '2' {
        AddressOrFault(s, msg);
        PasvAcceptedHistory(s, msg);
      } else {
        PasvSkippedHistory(s, msg);
      }
    } else if code == '1' {
      PreliminaryHistory(s, msg);
    } else if code == '2' {
      CompletionHistory(s, msg);
    } else {
      BrokenOffHistory(s, msg);
    }
  }

  /** A failed login empties the queue into `lost`. */
  lemma FailedLoginHistory(s: Ftp)
    requires IdleMeansEmpty(s) && History(s) && s.ctl.state == Pass
    ensures History(LoginEvent(To(s, User), false))
  {
    var log := s.log;
    assert Outstanding(s) == [];
    if s.ctl.inProgress {
      assert log.lost + Cmds(log.gone) + s.ctl.q == s.ctl.q == log.lost + s.ctl.q + Cmds(log.gone) + [];
    } else {
      assert log.lost + s.ctl.q == log.lost;
    }
  }

  lemma LoginDecided(s: Ftp, msg: seq<byte>, ok: bool)
    requires IdleMeansEmpty(s) && History(s) && s.ctl.state == Pass && !s.fault
    requires Rule(Pass, Code(msg)) == Some((if ok then Ready else User, Login(ok)))
    ensures History(OnReply(s, msg))
  {
    if ok {
      NextHistory(s.(ctl := s.ctl.(state := Ready, inProgress := false)));
    } else {
      FailedLoginHistory(s);
    }
    LoginReply(s, msg);
  }

  lemma LoginHistory(s: Ftp, msg: seq<byte>)
    requires IdleMeansEmpty(s) && History(s) && !InFlight(s) && !s.fault
    requires s.ctl.state !in {Gen, Pasv, Mark} && (s.ctl.state == Data ==> Rule(Data, Code(msg)).None?)
    ensures History(OnReply(s, msg))
  {
    if Rule(s.ctl.state, Code(msg)).None? {
      IgnoredReply(s, msg);
    } else if s.ctl.state == Pass && Code(msg) != '3' {
      LoginDecided(s, msg, Code(msg) == '2');
    } else {
      LoginTalk(s, msg);
      SameHistory(s, OnReply(s, msg));
    }
  }

  lemma AppendHistory(s: Ftp, call: Call)
    requires History(s) && (InFlight(s) ==> s.ctl.q != [])
    ensures History(Append(s, call))
    ensures Ledger(Append(s, call).ctl.q, Append(s, call).log, Outstanding(s))
  {
    var cmds := Commands(s.config.tls, call);
    Regroup(s.log.lost + Cmds(s.log.gone), s.ctl.q, cmds);
  }

  lemma CallHistory(s: Ftp, call: Call)
    requires History(s) && ValidCall(call) && (InFlight(s) ==> s.ctl.q != [])
    ensures History(OnCall(s, call))
  {
    AppendHistory(s, call);
    if !s.ctl.inProgress {
      NextHistory(Append(s, call));
    }
  }

  lemma NotifyHistory(s: Ftp)
    requires History(s) && s.ctl.q != []
    ensures History(NotifyEnd(s, s.ctl.q[0]))
  {
    var c := s.ctl.q[0];
    if c.tcbk.Some? {
      RespondOne(s.talk.callbacks, End(c.tcbk.value));
    }
    SameHistory(s, NotifyEnd(s, c));
  }

  lemma ResetHistory(s: Ftp)
    requires History(s) && InFlight(s) && s.ctl.q != [] && IsTransfer(s.ctl.q[0].verb)
    ensures History(ResetDevices(s)) && History(SkipCommand(ResetDevices(s), 1))
  {
    SameHistory(s, ResetDevices(s));
    PopOneHistory(ResetDevices(s));
  }

  lemma ClosedHistory(s: Ftp)
    requires Sound(s) && History(s) && s.xfer.dataChannel.Some?
    ensures History(OnDataChannelDisconnect(s))
  {
    NotifyHistory(s);
    ResetHistory(NotifyEnd(s, s.ctl.q[0]));
  }

  /** The callbacks are the same, or one chunk has been handed over. */
  predicate AtMostAChunk(was: seq<Callback>, now: seq<Callback>) {
    now == was || (now != [] && now[..|now| - 1] == was && now[|now| - 1].Chunk?)
  }

  /** What the devices report at most hands a chunk to a callback. */
  lemma DeviceTalk(s: Ftp, e: Event)
    requires Sound(s) && Possible(s, e) && (e.DataChunk? || e.FileChunk? || e.FileEnd? || e.DataHandshake?)
    ensures AtMostAChunk(s.talk.callbacks, Step(s, e).talk.callbacks)
  {
  }

  lemma ChunkHistory(s: Ftp, t: Ftp)
    requires History(s) && t.config == s.config && t.ctl == s.ctl && t.log == s.log && t.talk.answers == s.talk.answers
    requires AtMostAChunk(s.talk.callbacks, t.talk.callbacks)
    ensures History(t)
  {
    var was, now := s.talk.callbacks, t.talk.callbacks;
    if now != was {
      RespondOne(was, now[|now| - 1]);
      SplitLast(now);
    }
    SameHistory(s, t);
  }

  lemma TransferHistory(s: Ftp, e: Event)
    requires Sound(s) && History(s) && Possible(s, e)
             && (e.DataChunk? || e.FileChunk? || e.FileEnd? || e.DataHandshake?)
    ensures History(Step(s, e))
  {
    DeviceFrame(s, e);
    DeviceTalk(s, e);
    ChunkHistory(s, Step(s, e));
  }

  lemma ConnectHistory(s: Ftp)
    requires Sound(s) && History(s) && s.ctl.state == Connecting
    ensures History(OnConnect(s))
  {
    if s.config.onConnect.Some? {
      RespondOne(s.talk.callbacks, Online(s.config.onConnect.value));
    }
    SameHistory(s, OnConnect(s));
  }

  lemma AnyReplyHistory(s: Ftp, msg: seq<byte>)
    requires Sound(s) && History(s) && !OnReply(s, msg).fault
    ensures History(OnReply(s, msg))
  {
    if InFlight(s) {
      ReplyHistory(s, msg);
    } else {
      if s.ctl.state == Data && Rule(Data, Code(msg)).Some? {
        UnaskedBreaks(s, msg);
      }
      LoginHistory(s, msg);
    }
  }

  lemma StepHistory(s: Ftp, e: Event)
    requires Sound(s) && History(s) && Possible(s, e) && !Step(s, e).fault
    ensures History(Step(s, e))
  {
    match e
    case Api(call) => CallHistory(s, call);
    case Reply(msg) => AnyReplyHistory(s, msg);
    case DataClosed => ClosedHistory(s);
    case Connect => ConnectHistory(s);
    case ControlHandshake => SameHistory(s, Step(s, e));
    case _ => TransferHistory(s, e);
  }

  lemma StepCalled(s: Ftp, e: Event)
    requires Called(s.config.tls, s.log)
    ensures Called(Step(s, e).config.tls, Step(s, e).log)
  {
    StepCalls(s, e);
    if e.Api? {
      assert (s.log.calls + [e.call])[..|s.log.calls|] == s.log.calls;
    }
  }

  // -------- Over whole runs --------

  lemma {:induction false} RunHistory(config: Config, disk: map<string, seq<byte>>, es: seq<Event>)
    requires LiveRun(Init(config, disk), es)
    ensures var s := Run(Init(config, disk), es);
            Sound(s) && History(s) && Called(s.config.tls, s.log)
    decreases |es|
  {
    if es != [] {
      var before := es[..|es| - 1];
      LiveBefore(Init(config, disk), es);
      RunHistory(config, disk, before);
      StepCalled(Run(Init(config, disk), before), es[|es| - 1]);
      StepSound(Run(Init(config, disk), before), es[|es| - 1]);
      StepHistory(Run(Init(config, disk), before), es[|es| - 1]);
    }
  }

  /**
   At every moment at most one queued command has been sent and not yet retired, and it is the front of the queue.
   */
  lemma MutualExclusion(config: Config, disk: map<string, seq<byte>>, es: seq<Event>)
    requires LiveRun(Init(config, disk), es)
    ensures var s := Run(Init(config, disk), es);
            && |RetiredCmds(s.log.gone)| <= |s.log.sent| <= |RetiredCmds(s.log.gone)| + 1
            && (|s.log.sent| == |RetiredCmds(s.log.gone)| + 1 <==> InFlight(s))
            && (InFlight(s) ==> s.ctl.q != [] && s.log.sent[|s.log.sent| - 1] == s.ctl.q[0])
            && (!s.ctl.inProgress ==> s.ctl.q == [])
  {
    RunHistory(config, disk, es);
  }

  /** The replies that reached the engine while a GEN command was in flight, in order. */
  function GenReplies(s: Ftp, es: seq<Event>): seq<seq<byte>>
    decreases |es|
  {
    if es == [] then []
    else
      var before, e := es[..|es| - 1], es[|es| - 1];
      var s' := Run(s, before);
      GenReplies(s, before)
      + if e.Reply? && s'.ctl.inProgress && s'.ctl.state == Gen && '1' <= Code(e.msg) <= '5' then [e.msg] else []
  }

  lemma ActKeepsAnswers(s: Ftp, a: Action, msg: seq<byte>)
    requires !a.GenResponse?
    ensures Act(s, a, msg).talk.answers == s.talk.answers
  {
    match a
    case DataResponse(code) =>
      if code == '1' {
        assert InitializeFileDevice(s).talk == s.talk;
      }
    case _ =>
  }

  lemma ReplyAnswers(s: Ftp, msg: seq<byte>)
    requires Sound(s) && !OnReply(s, msg).fault
    ensures OnReply(s, msg).talk.answers
            == if s.ctl.inProgress && s.ctl.state == Gen && '1' <= Code(msg) <= '5' then s.talk.answers + [msg]
               else s.talk.answers
  {
    var rule := Rule(s.ctl.state, Code(msg));
    if rule.None? {
      IgnoredReply(s, msg);
    } else if s.ctl.state == Gen {
      GenReply(s, msg);
    } else {
      ActKeepsAnswers(To(s, rule.value.0), rule.value.1, msg);
    }
  }

  lemma AnswersGrow(s: Ftp, e: Event)
    requires Sound(s) && Possible(s, e) && !Step(s, e).fault
    ensures Step(s, e).talk.answers
            == if e.Reply? && s.ctl.inProgress && s.ctl.state == Gen && '1' <= Code(e.msg) <= '5'
               then s.talk.answers + [e.msg]
               else s.talk.answers
  {
    match e
    case Reply(msg) => ReplyAnswers(s, msg);
    case Api(_) =>
    case DataClosed =>
    case _ =>
  }

  lemma {:induction false} AnswersAreReplies(config: Config, disk: map<string, seq<byte>>, es: seq<Event>)
    requires LiveRun(Init(config, disk), es)
    ensures Run(Init(config, disk), es).talk.answers == GenReplies(Init(config, disk), es)
    decreases |es|
  {
    if es != [] {
      var before := es[..|es| - 1];
      LiveBefore(Init(config, disk), es);
      AnswersAreReplies(config, disk, before);
      RunHistory(config, disk, before);
      AnswersGrow(Run(Init(config, disk), before), es[|es| - 1]);
    }
  }

  /**
   Over every run that has not faulted: the GEN commands that were sent and retired are as many as the replies that
   came while one was in flight, and the callers' callbacks are exactly those replies, each at its own command.
   */
  lemma EveryCallerAnsweredOnce(config: Config, disk: map<string, seq<byte>>, es: seq<Event>)
    requires LiveRun(Init(config, disk), es)
    ensures var s := Run(Init(config, disk), es);
            var cmds, replies := GenCmds(RetiredCmds(s.log.gone)), GenReplies(Init(config, disk), es);
            |cmds| == |replies| && Responses(s.talk.callbacks) == Answered(cmds, replies)
  {
    RunHistory(config, disk, es);
    AnswersAreReplies(config, disk, es);
  }
}
