/**
 What the server sees: over every run that has not faulted, failed logins and refused transfers included, each PROT is
 sent directly after a PBSZ (section 3 of RFC 2228) and each transfer directly after a PASV.
 */
module FtpOrder {
  import opened Wrappers
  import opened Bytes
  import opened FtpModel
  import opened FtpInvariant
  import opened FtpHistory

  predicate FollowsOwn(q: seq<Cmd>, i: nat)
    requires i < |q|
  {
    && (q[i].verb == PROT ==> i > 0 && q[i - 1].verb == PBSZ)
    && (IsTransfer(q[i].verb) ==> i > 0 && q[i - 1].verb == PASV)
  }

  ghost predicate InOrder(q: seq<Cmd>) {
    forall i :: 0 <= i < |q| ==> FollowsOwn(q, i)
  }

  lemma OrderConcat(a: seq<Cmd>, b: seq<Cmd>)
    requires InOrder(a) && InOrder(b)
    ensures InOrder(a + b)
  {
    forall i | 0 <= i < |a + b| ensures FollowsOwn(a + b, i) {
      assert if i < |a| then FollowsOwn(a, i) else FollowsOwn(b, i - |a|);
    }
  }

  lemma OrderPrefix(a: seq<Cmd>, b: seq<Cmd>)
    requires InOrder(a + b)
    ensures InOrder(a)
  {
    forall i | 0 <= i < |a| ensures FollowsOwn(a, i) {
      assert FollowsOwn(a + b, i);
    }
  }

  /** Taking out a transfer disturbs nothing: what comes behind it cannot be meant to follow it. */
  lemma OrderWithout(a: seq<Cmd>, c: Cmd, b: seq<Cmd>)
    requires InOrder(a + ([c] + b)) && IsTransfer(c.verb)
    ensures InOrder(a + b)
  {
    var all := a + ([c] + b);
    forall i | 0 <= i < |a + b| ensures FollowsOwn(a + b, i) {
      assert FollowsOwn(all, if i < |a| then i else i + 1);
    }
  }

  lemma LevelsThen(tls: TLS, level: DCProt, rest: seq<Cmd>)
    requires InOrder(rest)
    ensures InOrder(LevelCommands(tls, level) + rest)
  {
    assert InOrder(LevelCommands(tls, level));
    OrderConcat(LevelCommands(tls, level), rest);
  }

  lemma CallInOrder(tls: TLS, call: Call)
    requires ValidCall(call)
    ensures InOrder(Commands(tls, call))
  {
    match call
    case Upload(cbk, remote, local, level) =>
      LevelsThen(tls, level, [PASV_CMD, Cmd(STOR, remote, local, NoResponse, cbk)]);
    case Download(cbk, remote, local, level) =>
      LevelsThen(tls, level, [PASV_CMD, Cmd(RETR, remote, local, NoResponse, cbk)]);
    case ListDirectory(cbk, remote, level) =>
      LevelsThen(tls, level, [Cmd(TYPE, "I", "", NoResponse, None), PASV_CMD, Cmd(LIST, remote, "", NoResponse, cbk)]);
    case Simple(_, _, _) =>
  }

  predicate ValidCalls(calls: seq<Call>) {
    forall c <- calls :: ValidCall(c)
  }

  lemma {:induction false} CallsInOrder(tls: TLS, calls: seq<Call>)
    requires ValidCalls(calls)
    ensures InOrder(AllCommands(tls, calls))
  {
    if calls != [] {
      var n := |calls| - 1;
      CallsInOrder(tls, calls[..n]);
      CallInOrder(tls, calls[n]);
      OrderConcat(AllCommands(tls, calls[..n]), Commands(tls, calls[n]));
    }
  }

  lemma {:induction false} AllCommandsSplit(tls: TLS, calls: seq<Call>, n: nat)
    requires n <= |calls|
    ensures AllCommands(tls, calls) == AllCommands(tls, calls[..n]) + AllCommands(tls, calls[n..])
    decreases |calls|
  {
    var m := |calls| - 1;
    if n <= m {
      AllCommandsSplit(tls, calls[..m], n);
      assert calls[..m][..n] == calls[..n] && calls[..m][n..] == calls[n..][..m - n];
      Regroup(AllCommands(tls, calls[..n]), AllCommands(tls, calls[..m][n..]), Commands(tls, calls[m]));
    } else {
      assert calls[..n] == calls;
    }
  }

  /** What was retired, followed by what is queued, is in order if everything popped and queued is. */
  lemma {:induction false} RetiredInOrder(gone: seq<Gone>, rest: seq<Cmd>)
    requires InOrder(Cmds(gone) + rest) && SkipsOk(gone)
    ensures InOrder(RetiredCmds(gone) + rest)
    decreases |gone|
  {
    if gone != [] {
      var before, last := gone[..|gone| - 1], gone[|gone| - 1];
      Regroup(Cmds(before), [last.cmd], rest);
      if last.Retired? {
        Regroup(RetiredCmds(before), [last.cmd], rest);
        RetiredInOrder(before, [last.cmd] + rest);
      } else {
        OrderWithout(Cmds(before), last.cmd, rest);
        RetiredInOrder(before, rest);
        assert RetiredCmds(gone) == RetiredCmds(before);
      }
    }
  }

  // -------- What a failed login drops --------

  lemma DataResponseKeepsLost(s: Ftp, code: char)
    ensures ProcessDataCmdResponse(s, code).log.lost == s.log.lost
  {
    if code == '1' {
      assert InitializeFileDevice(s).log == s.log;
    }
  }

  lemma ActKeepsLost(s: Ftp, a: Action, msg: seq<byte>)
    requires a != Login(false)
    ensures Act(s, a, msg).log.lost == s.log.lost
  {
    match a
    case DataResponse(code) => DataResponseKeepsLost(s, code);
    case _ =>
  }

  /**
   Before the login is decided everything that was ever queued is still there, so a failed login drops whole calls.
   */
  lemma ReplyLost(s: Ftp, msg: seq<byte>)
    requires Sound(s) && History(s)
    ensures var r := OnReply(s, msg);
            r.log.lost == s.log.lost || r.log.lost == r.log.enqueued
  {
    var rule := Rule(s.ctl.state, Code(msg));
    if rule.None? {
      IgnoredReply(s, msg);
    } else if rule.value.1 == Login(false) {
      LoginReply(s, msg);
      assert s.ctl.inProgress ==> s.log.enqueued == s.ctl.q;
    } else {
      ActKeepsLost(To(s, rule.value.0), rule.value.1, msg);
    }
  }

  lemma OtherKeepsLost(s: Ftp, e: Event)
    requires !e.Reply?
    ensures Step(s, e).log.lost == s.log.lost
  {
    match e
    case Api(call) => assert Append(s, call).log.lost == s.log.lost;
    case DataClosed =>
      if s.ctl.q != [] {
        DataResponseKeepsLost(NotifyEnd(s, s.ctl.q[0]), '0');
      }
    case _ =>
  }

  lemma StepLost(s: Ftp, e: Event)
    requires Sound(s) && History(s)
    ensures var r := Step(s, e);
            r.log.lost == s.log.lost || r.log.lost == r.log.enqueued
  {
    if e.Reply? {
      ReplyLost(s, e.msg);
      assert !s.fault;
    } else {
      OtherKeepsLost(s, e);
    }
  }

  /** The calls are valid, and a failed login has dropped what the first of them queued, no more and no less. */
  ghost predicate LostWhole(tls: TLS, log: Log) {
    && ValidCalls(log.calls) && Called(tls, log)
    && exists n: nat :: n <= |log.calls| && log.lost == AllCommands(tls, log.calls[..n])
  }

  lemma LostGrows(tls: TLS, log: Log, log': Log)
    requires LostWhole(tls, log) && ValidCalls(log'.calls) && Called(tls, log') && log.calls <= log'.calls
    requires log'.lost == log.lost || log'.lost == log'.enqueued
    ensures LostWhole(tls, log')
  {
    if log'.lost == log.lost {
      var n: nat :| n <= |log.calls| && log.lost == AllCommands(tls, log.calls[..n]);
      assert log'.calls[..n] == log.calls[..n];
    } else {
      assert log'.calls[..|log'.calls|] == log'.calls;
    }
  }

  lemma CallsGrow(s: Ftp, e: Event)
    requires Possible(s, e) && ValidCalls(s.log.calls)
    ensures var r := Step(s, e);
            r.config == s.config && s.log.calls <= r.log.calls && ValidCalls(r.log.calls)
  {
    StepCalls(s, e);
    if e.Api? {
      var s1 := Append(s, e.call);
      assert s1.config == s.config && s1.log.calls == s.log.calls + [e.call];
    }
  }

  lemma {:induction false} RunLost(config: Config, disk: map<string, seq<byte>>, es: seq<Event>)
    requires LiveRun(Init(config, disk), es)
    ensures var s := Run(Init(config, disk), es);
            s.config == config && LostWhole(config.tls, s.log)
    decreases |es|
  {
    if es == [] {
      var log := Init(config, disk).log;
      assert log.calls[..0] == [] && log.lost == AllCommands(config.tls, log.calls[..0]);
    } else {
      var before, e := es[..|es| - 1], es[|es| - 1];
      var s := Run(Init(config, disk), before);
      LiveBefore(Init(config, disk), es);
      RunLost(config, disk, before);
      RunHistory(config, disk, before);
      StepLost(s, e);
      StepCalled(s, e);
      CallsGrow(s, e);
      LostGrows(config.tls, s.log, Step(s, e).log);
    }
  }

  /** What was popped and what is queued is what the calls since the last failed login queued. */
  lemma QueuedInOrder(tls: TLS, log: Log, q: seq<Cmd>)
    requires log.enqueued == log.lost + Cmds(log.gone) + q && LostWhole(tls, log)
    ensures InOrder(Cmds(log.gone) + q)
  {
    var n: nat :| n <= |log.calls| && log.lost == AllCommands(tls, log.calls[..n]);
    AllCommandsSplit(tls, log.calls, n);
    Regroup(log.lost, Cmds(log.gone), q);
    assert log.enqueued[|log.lost|..] == Cmds(log.gone) + q == AllCommands(tls, log.calls[n..]);
    CallsInOrder(tls, log.calls[n..]);
  }

  lemma LedgerInOrder(tls: TLS, log: Log, q: seq<Cmd>, front: seq<Cmd>)
    requires Ledger(q, log, front) && front <= q && LostWhole(tls, log)
    ensures InOrder(log.sent)
  {
    QueuedInOrder(tls, log, q);
    RetiredInOrder(log.gone, q);
    assert q == front + q[|front|..];
    Regroup(RetiredCmds(log.gone), front, q[|front|..]);
    OrderPrefix(log.sent, q[|front|..]);
  }

  /**
   Over every run that has not faulted the commands sent are in order: PROT directly after PBSZ, each transfer
   directly after PASV.
   */
  lemma SentInOrder(config: Config, disk: map<string, seq<byte>>, es: seq<Event>)
    requires LiveRun(Init(config, disk), es)
    ensures InOrder(Run(Init(config, disk), es).log.sent)
  {
    var s := Run(Init(config, disk), es);
    RunHistory(config, disk, es);
    RunLost(config, disk, es);
    LedgerInOrder(config.tls, s.log, s.ctl.q, Outstanding(s));
  }
}
