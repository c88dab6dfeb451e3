/**
 The protection level in force when a transfer runs is the one its API call asked for, on a TLS control channel, as
 long as no PROT that would change the level is refused; on a plain control channel it is always Clear.
 */
module FtpProtection {
  import opened Wrappers
  import opened Bytes
  import opened FtpAddress
  import opened FtpModel
  import opened FtpInvariant

  /** The levels asked for by the transfer calls, in order. */
  function Asked(calls: seq<Call>): seq<DCProt> {
    if calls == [] then []
    else
      var call := calls[|calls| - 1];
      Asked(calls[..|calls| - 1]) + if call.Simple? then [] else [call.level]
  }

  /** The levels at which the queued transfers will run, from `level` on, if every PROT among them is accepted. */
  function Scheduled(level: DCProt, q: seq<Cmd>): seq<DCProt>
    decreases |q|
  {
    if q == [] then []
    else if q[0].rcbk.SetLevel? then Scheduled(q[0].rcbk.level, q[1..])
    else if IsTransfer(q[0].verb) then [level] + Scheduled(level, q[1..])
    else Scheduled(level, q[1..])
  }

  /** The level in force behind the queue. */
  function LevelAfter(level: DCProt, q: seq<Cmd>): DCProt
    decreases |q|
  {
    if q == [] then level else LevelAfter(if q[0].rcbk.SetLevel? then q[0].rcbk.level else level, q[1..])
  }

  /** A transfer comes before any PROT. */
  predicate TransferFirst(q: seq<Cmd>) {
    q != [] && !q[0].rcbk.SetLevel? && (IsTransfer(q[0].verb) || TransferFirst(q[1..]))
  }

  /** Every PROT in the queue is there for a transfer behind it. */
  predicate ProtsServe(q: seq<Cmd>) {
    q != [] ==> (q[0].rcbk.SetLevel? ==> TransferFirst(q[1..])) && ProtsServe(q[1..])
  }

  /** The transfers in `q` are the last of those asked for, and will run at the levels asked for. */
  predicate AsAsked(level: DCProt, q: seq<Cmd>, asked: seq<DCProt>) {
    var pending := Scheduled(level, q);
    |pending| <= |asked| && asked[|asked| - |pending|..] == pending && ProtsServe(q)
  }

  predicate Kept(s: Ftp) {
    AsAsked(s.dcProt, s.ctl.q, Asked(s.log.calls))
  }

  /** A reply that does not accept PROT does no harm if the level is in force already. */
  predicate Harmless(s: Ftp, e: Event) {
    e.Reply? && s.ctl.inProgress && s.ctl.state == Gen && s.ctl.q != [] && s.ctl.q[0].rcbk.SetLevel?
    && Rule(Gen, Code(e.msg)).Some? && Code(e.msg) != '2'
    ==> s.dcProt == s.ctl.q[0].rcbk.level
  }

  // -------- Queues --------

  lemma {:induction false} ScheduledConcat(level: DCProt, a: seq<Cmd>, b: seq<Cmd>)
    ensures Scheduled(level, a + b) == Scheduled(level, a) + Scheduled(LevelAfter(level, a), b)
    decreases |a|
  {
    if a == [] {
      assert a + b == b;
    } else {
      var next := if a[0].rcbk.SetLevel? then a[0].rcbk.level else level;
      assert (a + b)[1..] == a[1..] + b;
      ScheduledConcat(next, a[1..], b);
    }
  }

  lemma {:induction false} TransferFirstConcat(a: seq<Cmd>, b: seq<Cmd>)
    requires TransferFirst(a)
    ensures TransferFirst(a + b)
  {
    assert (a + b)[1..] == a[1..] + b;
    if !IsTransfer(a[0].verb) {
      TransferFirstConcat(a[1..], b);
    }
  }

  lemma {:induction false} ProtsServeConcat(a: seq<Cmd>, b: seq<Cmd>)
    requires ProtsServe(a) && ProtsServe(b)
    ensures ProtsServe(a + b)
  {
    if a == [] {
      assert a + b == b;
    } else {
      assert (a + b)[1..] == a[1..] + b;
      ProtsServeConcat(a[1..], b);
      if a[0].rcbk.SetLevel? {
        TransferFirstConcat(a[1..], b);
      }
    }
  }

  lemma PairLevels(level: DCProt, t: Cmd)
    requires IsTransfer(t.verb) && t.rcbk == NoResponse
    ensures var q := [PASV_CMD, t];
            Scheduled(level, q) == [level] && TransferFirst(q) && ProtsServe(q)
  {
    assert [PASV_CMD, t][1..] == [t] && [t][1..] == [];
    assert Scheduled(level, [t]) == [level];
  }

  lemma LevelCommandsThen(tls: TLS, level: DCProt, asked: DCProt, rest: seq<Cmd>)
    requires SecureControl(tls) && TransferFirst(rest) && ProtsServe(rest)
    ensures var q := LevelCommands(tls, asked) + rest;
            Scheduled(level, q) == Scheduled(asked, rest) && ProtsServe(q)
  {
    var q := LevelCommands(tls, asked) + rest;
    assert q[1..] == [Cmd(PROT, LevelText(asked), "", SetLevel(asked), None)] + rest;
    assert q[1..][1..] == rest;
  }

  /** Wherever the level stands, what a call queues makes its transfer run at the level the call asked for. */
  lemma CallLevels(tls: TLS, level: DCProt, call: Call)
    requires SecureControl(tls) && ValidCall(call)
    ensures Scheduled(level, Commands(tls, call)) == if call.Simple? then [] else [call.level]
    ensures ProtsServe(Commands(tls, call))
  {
    match call
    case Upload(cbk, remote, local, asked) =>
      PairLevels(asked, Cmd(STOR, remote, local, NoResponse, cbk));
      LevelCommandsThen(tls, level, asked, [PASV_CMD, Cmd(STOR, remote, local, NoResponse, cbk)]);
    case Download(cbk, remote, local, asked) =>
      PairLevels(asked, Cmd(RETR, remote, local, NoResponse, cbk));
      LevelCommandsThen(tls, level, asked, [PASV_CMD, Cmd(RETR, remote, local, NoResponse, cbk)]);
    case ListDirectory(cbk, remote, asked) =>
      var list := Cmd(LIST, remote, "", NoResponse, cbk);
      var three := [Cmd(TYPE, "I", "", NoResponse, None), PASV_CMD, list];
      assert three[1..] == [PASV_CMD, list];
      PairLevels(asked, list);
      LevelCommandsThen(tls, level, asked, three);
    case Simple(_, _, _) => assert Commands(tls, call)[1..] == [];
  }

  // -------- Steps --------

  lemma NextLevels(s: Ftp)
    ensures Kept(ProcessNextCmd(s)) <==> Kept(s)
  {
  }

  /** The end of an end is an end. */
  lemma SuffixOfSuffix(asked: seq<DCProt>, all: seq<DCProt>, n: nat)
    requires n <= |all| <= |asked| && asked[|asked| - |all|..] == all
    ensures asked[|asked| - n..] == all[|all| - n..]
  {
    assert asked[|asked| - n..] == asked[|asked| - |all|..][|all| - n..];
  }

  /** Popping a command that sets no level from the front of the queue. */
  lemma PopAsAsked(level: DCProt, q: seq<Cmd>, asked: seq<DCProt>)
    requires q != [] && !q[0].rcbk.SetLevel? && AsAsked(level, q, asked)
    ensures AsAsked(level, q[1..], asked)
  {
    var all, rest := Scheduled(level, q), Scheduled(level, q[1..]);
    assert rest == all[|all| - |rest|..];
    SuffixOfSuffix(asked, all, |rest|);
  }

  lemma PopOneLevels(s: Ftp)
    requires Kept(s) && s.ctl.q != [] && !s.ctl.q[0].rcbk.SetLevel?
    ensures Kept(SkipCommand(s, 1))
  {
    PopAsAsked(s.dcProt, s.ctl.q, Asked(s.log.calls));
    NextLevels(Pop(s, 1));
  }

  lemma PopTwoLevels(s: Ftp)
    requires Kept(s) && |s.ctl.q| >= 2 && !s.ctl.q[0].rcbk.SetLevel? && !s.ctl.q[1].rcbk.SetLevel?
    ensures Kept(SkipCommand(s, 2))
  {
    var q := s.ctl.q;
    PopAsAsked(s.dcProt, q, Asked(s.log.calls));
    PopAsAsked(s.dcProt, q[1..], Asked(s.log.calls));
    assert Pop(s, 2).ctl.q == q[1..][1..];
    NextLevels(Pop(s, 2));
  }

  /** A PROT and its reply: the level is as asked for behind it exactly if it was accepted or changed nothing. */
  lemma ProtLevels(s: Ftp, msg: seq<byte>)
    requires Kept(s) && s.ctl.q != [] && s.ctl.q[0].rcbk.SetLevel?
    ensures Kept(ProcessGenCmdEvent(s, msg)) <==> Code(msg) == '2' || s.dcProt == s.ctl.q[0].rcbk.level
  {
    var rest, level := s.ctl.q[1..], s.ctl.q[0].rcbk.level;
    var s1 := Pop(NoteAnswer(RunResponse(s, s.ctl.q[0], msg), msg), 1);
    NextLevels(s1);
    assert s1.ctl.q == rest && s1.log.calls == s.log.calls;
    ScheduledFirst(s.dcProt, rest);
    ScheduledFirst(level, rest);
  }

  lemma {:induction false} ScheduledFirst(level: DCProt, q: seq<Cmd>)
    requires TransferFirst(q)
    ensures Scheduled(level, q) != [] && Scheduled(level, q)[0] == level
    ensures forall other :: |Scheduled(other, q)| == |Scheduled(level, q)|
  {
    if !IsTransfer(q[0].verb) {
      ScheduledFirst(level, q[1..]);
    }
    forall other ensures |Scheduled(other, q)| == |Scheduled(level, q)| {
      ScheduledLength(other, level, q);
    }
  }

  lemma {:induction false} ScheduledLength(a: DCProt, b: DCProt, q: seq<Cmd>)
    ensures |Scheduled(a, q)| == |Scheduled(b, q)|
  {
    if q != [] && !q[0].rcbk.SetLevel? {
      ScheduledLength(a, b, q[1..]);
    }
  }

  lemma GenLevels(s: Ftp, msg: seq<byte>)
    requires Sound(s) && Kept(s) && s.ctl.inProgress && s.ctl.state == Gen && '1' <= Code(msg) <= '5'
    ensures Kept(OnReply(s, msg)) <==> Harmless(s, Reply(msg))
  {
    GenReply(s, msg);
    if s.ctl.q[0].rcbk.SetLevel? {
      ProtLevels(To(s, Ready), msg);
    } else {
      PopOneLevels(NoteAnswer(RunResponse(To(s, Ready), s.ctl.q[0], msg), msg));
    }
  }

  lemma FrontSetsNothing(s: Ftp)
    requires Sound(s) && InFlight(s) && s.ctl.state != Gen
    ensures !s.ctl.q[0].rcbk.SetLevel?
    ensures s.ctl.state == Pasv ==> |s.ctl.q| >= 2 && !s.ctl.q[1].rcbk.SetLevel?
  {
    assert CmdOk(s.ctl.q[0]);
    if s.ctl.state == Pasv {
      assert CmdOk(s.ctl.q[1]);
    }
  }

  /** Nothing a level depends on has changed. */
  lemma SameLevels(s: Ftp, t: Ftp)
    requires t.dcProt == s.dcProt && t.ctl.q == s.ctl.q && t.log.calls == s.log.calls
    ensures Kept(t) <==> Kept(s)
  {
  }

  lemma PasvLevels(s: Ftp, msg: seq<byte>)
    requires Sound(s) && Kept(s) && s.ctl.inProgress && s.ctl.state == Pasv && Rule(Pasv, Code(msg)).Some?
    requires !OnReply(s, msg).fault
    ensures Kept(OnReply(s, msg))
  {
    FrontSetsNothing(s);
    if Code(msg) == '2' {
      PasvAccepted(s, msg);
      PopOneLevels(To(s, Data));
      var s1 := SkipCommand(To(s, Data), 1);
      SameLevels(s1, OpenDataChannel(s1, ReadAddress(msg).value));
    } else {
      PasvSkipped(s, msg);
      PopTwoLevels(To(s, if Code(msg) == '1' then Data else Ready));
    }
  }

  lemma TransferLevels(s: Ftp, msg: seq<byte>)
    requires Sound(s) && Kept(s) && s.ctl.inProgress && s.ctl.state in {Data, Mark}
    requires Rule(s.ctl.state, Code(msg)).Some?
    ensures Kept(OnReply(s, msg))
  {
    FrontSetsNothing(s);
    if Code(msg) == '1' {
      PreliminaryReply(s, msg);
      PreliminaryFrame(To(s, Mark));
      SameLevels(s, OnReply(s, msg));
    } else if Code(msg) == '2' {
      CompletionReply(s, msg);
      if s.xfer.dataChannel.None? {
        PopOneLevels(To(s, Final));
      } else {
        SameLevels(s, To(s, Final));
      }
    } else {
      BreakOffReply(s, msg);
      PopOneLevels(ResetDevices(To(s, Final)));
    }
  }

  lemma LoginLevels(s: Ftp, msg: seq<byte>)
    requires Sound(s) && Kept(s) && !InFlight(s) && !OnReply(s, msg).fault
    ensures Kept(OnReply(s, msg))
  {
    var code := Code(msg);
    if Rule(s.ctl.state, code).None? {
      IgnoredReply(s, msg);
    } else if s.ctl.state == Data {
      UnaskedBreaks(s, msg);
    } else if s.ctl.state == Pass && code != '3' {
      LoginReply(s, msg);
      if code == '2' {
        NextLevels(s.(ctl := s.ctl.(state := Ready, inProgress := false)));
      }
    } else {
      LoginTalk(s, msg);
      SameLevels(s, OnReply(s, msg));
    }
  }

  lemma SuffixAppend(asked: seq<DCProt>, pending: seq<DCProt>, more: seq<DCProt>)
    requires |pending| <= |asked| && asked[|asked| - |pending|..] == pending
    ensures (asked + more)[|asked + more| - |pending + more|..] == pending + more
  {
  }

  lemma AppendLevels(s: Ftp, call: Call)
    requires SecureControl(s.config.tls) && Kept(s) && ValidCall(call)
    ensures Kept(Append(s, call))
  {
    var cmds := Commands(s.config.tls, call);
    var calls := s.log.calls + [call];
    CallLevels(s.config.tls, LevelAfter(s.dcProt, s.ctl.q), call);
    ScheduledConcat(s.dcProt, s.ctl.q, cmds);
    ProtsServeConcat(s.ctl.q, cmds);
    assert calls[..|calls| - 1] == s.log.calls;
    var more := if call.Simple? then [] else [call.level];
    SuffixAppend(Asked(s.log.calls), Scheduled(s.dcProt, s.ctl.q), more);
    assert Asked(calls) == Asked(s.log.calls) + more;
  }

  lemma CloseLevels(s: Ftp)
    requires Sound(s) && Kept(s) && s.xfer.dataChannel.Some?
    ensures Kept(OnDataChannelDisconnect(s))
  {
    FrontSetsNothing(s);
    var s1 := ResetDevices(NotifyEnd(s, s.ctl.q[0]));
    SameLevels(s, s1);
    if s.ctl.state == Final {
      PopOneLevels(s1);
    }
  }

  lemma ReplyLevels(s: Ftp, msg: seq<byte>)
    requires Sound(s) && Kept(s) && !OnReply(s, msg).fault
    ensures Kept(OnReply(s, msg)) <==> Harmless(s, Reply(msg))
  {
    if !InFlight(s) {
      LoginLevels(s, msg);
    } else if Rule(s.ctl.state, Code(msg)).None? {
      IgnoredReply(s, msg);
    } else if s.ctl.state == Gen {
      GenLevels(s, msg);
    } else if s.ctl.state == Pasv {
      PasvLevels(s, msg);
    } else {
      TransferLevels(s, msg);
    }
  }

  /**
   The levels stay as asked for if and only if the event is not the refusal of a PROT that would change the level.
   */
  lemma StepKeepsLevelsIff(s: Ftp, e: Event)
    requires Sound(s) && Kept(s) && SecureControl(s.config.tls) && Possible(s, e) && !Step(s, e).fault
    ensures Kept(Step(s, e)) <==> Harmless(s, e)
  {
    match e
    case Reply(msg) => ReplyLevels(s, msg);
    case Api(call) =>
      AppendLevels(s, call);
      NextLevels(Append(s, call));
    case DataClosed => CloseLevels(s);
    case Connect => SameLevels(s, Step(s, e));
    case ControlHandshake => SameLevels(s, Step(s, e));
    case _ =>
      DeviceFrame(s, e);
      SameLevels(s, Step(s, e));
  }

  // -------- Runs --------

  predicate HarmlessRun(s: Ftp, es: seq<Event>)
    decreases |es|
  {
    es != [] ==>
      var before := es[..|es| - 1];
      HarmlessRun(s, before) && Harmless(Run(s, before), es[|es| - 1])
  }

  lemma {:induction false} RunLevels(config: Config, disk: map<string, seq<byte>>, es: seq<Event>)
    requires SecureControl(config.tls) && LiveRun(Init(config, disk), es) && HarmlessRun(Init(config, disk), es)
    ensures var s := Run(Init(config, disk), es);
            Sound(s) && Kept(s) && s.config == config
    decreases |es|
  {
    if es != [] {
      var before, e := es[..|es| - 1], es[|es| - 1];
      var s := Run(Init(config, disk), before);
      LiveBefore(Init(config, disk), es);
      RunLevels(config, disk, before);
      StepSound(s, e);
      StepKeepsLevelsIff(s, e);
      StepCalls(s, e);
    }
  }

  function Transfers(q: seq<Cmd>): nat {
    if q == [] then 0 else (if IsTransfer(q[0].verb) then 1 else 0) + Transfers(q[1..])
  }

  lemma {:induction false} ScheduledCounts(level: DCProt, q: seq<Cmd>)
    requires CmdsOk(q)
    ensures |Scheduled(level, q)| == Transfers(q)
    decreases |q|
  {
    if q != [] {
      assert CmdOk(q[0]);
      assert forall c <- q[1..] :: c in q;
      ScheduledCounts(if q[0].rcbk.SetLevel? then q[0].rcbk.level else level, q[1..]);
    }
  }

  /**
   Whenever a transfer is in flight the level in force is the one asked for by its own call: with n transfers
   queued, the n-th from the last of the transfer calls made.
   */
  lemma ProtectionFollowsRequest(config: Config, disk: map<string, seq<byte>>, es: seq<Event>)
    requires SecureControl(config.tls) && LiveRun(Init(config, disk), es) && HarmlessRun(Init(config, disk), es)
    ensures var s := Run(Init(config, disk), es);
            var asked, n := Asked(s.log.calls), Transfers(s.ctl.q);
            n <= |asked| && (InTransfer(s) ==> n > 0 && s.dcProt == asked[|asked| - n])
  {
    var s := Run(Init(config, disk), es);
    RunLevels(config, disk, es);
    ScheduledCounts(s.dcProt, s.ctl.q);
    var pending, asked := Scheduled(s.dcProt, s.ctl.q), Asked(s.log.calls);
    if InTransfer(s) {
      assert CmdOk(s.ctl.q[0]);
      assert pending[0] == asked[|asked| - |pending|..][0];
    }
  }

  // -------- Plain control channels --------

  /** No command in the queue can change the level, and it is Clear. */
  ghost predicate LevelFixed(s: Ftp) {
    !SecureControl(s.config.tls) && s.dcProt == Clear && forall c <- s.ctl.q :: !c.rcbk.SetLevel?
  }

  lemma SkipPlain(s: Ftp, n: nat)
    requires LevelFixed(s)
    ensures LevelFixed(SkipCommand(s, n))
  {
    if n <= |s.ctl.q| {
      assert forall c <- s.ctl.q[n..] :: c in s.ctl.q;
    }
  }

  lemma DataResponsePlain(s: Ftp, code: char)
    requires LevelFixed(s)
    ensures LevelFixed(ProcessDataCmdResponse(s, code))
  {
    if code == '1' {
      assert LevelFixed(InitializeFileDevice(s));
    } else {
      SkipPlain(s, 1);
      SkipPlain(ResetDevices(s), 1);
    }
  }

  lemma ActPlain(s: Ftp, a: Action, msg: seq<byte>)
    requires LevelFixed(s)
    ensures LevelFixed(Act(s, a, msg))
  {
    match a
    case SkipTwo => SkipPlain(s, 2);
    case PasvResponse => SkipPlain(s, 1);
    case DataResponse(code) => DataResponsePlain(s, code);
    case GenResponse =>
      if s.ctl.q != [] {
        SkipPlain(NoteAnswer(RunResponse(s, s.ctl.q[0], msg), msg), 1);
      }
    case _ =>
  }

  lemma CallPlain(s: Ftp, call: Call)
    requires LevelFixed(s)
    ensures LevelFixed(OnCall(s, call))
  {
    assert forall c <- Commands(s.config.tls, call) :: !c.rcbk.SetLevel?;
    assert LevelFixed(Append(s, call));
  }

  lemma ReplyPlain(s: Ftp, msg: seq<byte>)
    requires LevelFixed(s)
    ensures LevelFixed(OnReply(s, msg))
  {
    if !s.fault && Rule(s.ctl.state, Code(msg)).Some? {
      var (to, action) := Rule(s.ctl.state, Code(msg)).value;
      ActPlain(To(s, to), action, msg);
    }
  }

  lemma StepPlain(s: Ftp, e: Event)
    requires LevelFixed(s)
    ensures LevelFixed(Step(s, e))
  {
    match e
    case Api(call) => CallPlain(s, call);
    case Reply(msg) => ReplyPlain(s, msg);
    case DataClosed =>
      if s.ctl.q != [] {
        DataResponsePlain(NotifyEnd(s, s.ctl.q[0]), '0');
      }
    case _ =>
  }

  /** On a plain control channel the level is Clear at every moment of every run, whatever the calls asked for. */
  lemma {:induction false} PlainChannelStaysClear(config: Config, disk: map<string, seq<byte>>, es: seq<Event>)
    requires !SecureControl(config.tls)
    ensures LevelFixed(Run(Init(config, disk), es))
    decreases |es|
  {
    if es != [] {
      PlainChannelStaysClear(config, disk, es[..|es| - 1]);
      StepPlain(Run(Init(config, disk), es[..|es| - 1]), es[|es| - 1]);
    }
  }
}
