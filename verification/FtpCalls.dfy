/**
 What the API calls come to. Each call queues one command of its own, with the call's argument, local file and
 callback, behind the commands that prepare it; over every run the commands sent are those of the calls, in order.
 */
module FtpCalls {
  import opened Wrappers
  import opened Bytes
  import opened FtpModel
  import opened FtpInvariant
  import opened FtpHistory
  import opened FtpOrder
  import opened FtpWire

  /** What is asked of the server, for which local file, who is given the chunks and who the reply. */
  datatype Order = Order(verb: Verb, arg: string, local: string, chunksTo: Option<nat>, replyTo: Option<nat>)

  /** What a call is for. */
  function OrderOf(call: Call): Order {
    match call
    case Upload(cbk, remote, local, _) => Order(STOR, remote, local, cbk, None)
    case Download(cbk, remote, local, _) => Order(RETR, remote, local, cbk, None)
    case ListDirectory(cbk, remote, _) => Order(LIST, remote, "", cbk, None)
    case Simple(verb, arg, rcbk) => Order(verb, arg, "", None, rcbk)
  }

  function OrdersOf(calls: seq<Call>): (r: seq<Order>)
    ensures |r| == |calls|
  {
    seq(|calls|, i requires 0 <= i < |calls| => OrderOf(calls[i]))
  }

  /** The command is a call's own, not one that prepares it. */
  predicate IsOwn(c: Cmd) {
    c.verb !in [PBSZ, PROT, TYPE, PASV]
  }

  function AsOrder(c: Cmd): Order {
    Order(c.verb, c.remote, c.local, c.tcbk, if c.rcbk.Caller? then Some(c.rcbk.id) else None)
  }

  function Own(cmds: seq<Cmd>): seq<Order> {
    if cmds == [] then [] else (if IsOwn(cmds[0]) then [AsOrder(cmds[0])] else []) + Own(cmds[1..])
  }

  /** The lines that set the level. */
  function LevelLines(tls: TLS, level: DCProt): seq<(Verb, string)> {
    if tls == No then [] else [(PBSZ, "0"), (PROT, match level case Clear => "C" case Protected => "P")]
  }

  /** The lines a call means to have sent: the level on a TLS control channel, the type, PASV, and its own command. */
  function Script(tls: TLS, call: Call): seq<(Verb, string)> {
    match call
    case Upload(_, remote, _, level) => LevelLines(tls, level) + [(PASV, ""), (STOR, remote)]
    case Download(_, remote, _, level) => LevelLines(tls, level) + [(PASV, ""), (RETR, remote)]
    case ListDirectory(_, remote, level) => LevelLines(tls, level) + [(TYPE, "I"), (PASV, ""), (LIST, remote)]
    case Simple(verb, arg, _) => [(verb, arg)]
  }

  function Scripts(tls: TLS, calls: seq<Call>): seq<(Verb, string)> {
    if calls == [] then [] else Scripts(tls, calls[..|calls| - 1]) + Script(tls, calls[|calls| - 1])
  }

  function Pairs(cmds: seq<Cmd>): (r: seq<(Verb, string)>)
    ensures |r| == |cmds|
  {
    seq(|cmds|, i requires 0 <= i < |cmds| => (cmds[i].verb, cmds[i].remote))
  }

  /** An accepted PROT sets the level its line names, no other command sets one, and none but a call's own answers. */
  predicate NamesItsLevel(c: Cmd) {
    && (if c.verb == PROT then
          c.rcbk.SetLevel? && c.remote == match c.rcbk.level case Clear => "C" case Protected => "P"
        else !c.rcbk.SetLevel?)
    && (c.rcbk.Caller? ==> IsOwn(c))
  }

  ghost predicate LevelsNamed(cmds: seq<Cmd>) {
    forall c <- cmds :: NamesItsLevel(c)
  }

  // -------- Sequences of commands --------

  lemma {:induction false} OwnConcat(a: seq<Cmd>, b: seq<Cmd>)
    ensures Own(a + b) == Own(a) + Own(b)
  {
    if a == [] {
      assert a + b == b;
    } else {
      assert (a + b)[1..] == a[1..] + b;
      OwnConcat(a[1..], b);
    }
  }

  lemma OwnThree(a: seq<Cmd>, b: seq<Cmd>, c: seq<Cmd>)
    ensures Own(a + b + c) == Own(a) + Own(b) + Own(c)
    ensures Pairs(a + b + c) == Pairs(a) + Pairs(b) + Pairs(c)
  {
    OwnConcat(a + b, c);
    OwnConcat(a, b);
  }

  /** `a` is `b` with some elements left out. */
  predicate Within(a: seq<Order>, b: seq<Order>)
    decreases |b|
  {
    a == []
    || (b != [] && ((a[0] == b[0] && Within(a[1..], b[1..])) || Within(a, b[1..])))
  }

  lemma {:induction false} WithinConcat(a: seq<Order>, b: seq<Order>, c: seq<Order>, d: seq<Order>)
    requires Within(a, b) && Within(c, d)
    ensures Within(a + c, b + d)
    decreases |b|
  {
    if a == [] {
      assert a + c == c;
      WithinBehind(c, b, d);
    } else {
      assert (b + d)[1..] == b[1..] + d;
      if a[0] == b[0] && Within(a[1..], b[1..]) {
        WithinConcat(a[1..], b[1..], c, d);
        assert (a + c)[1..] == a[1..] + c;
      } else {
        WithinConcat(a, b[1..], c, d);
      }
    }
  }

  lemma {:induction false} WithinBehind(c: seq<Order>, b: seq<Order>, d: seq<Order>)
    requires Within(c, d)
    ensures Within(c, b + d)
    decreases |b|
  {
    if b == [] {
      assert b + d == d;
    } else {
      WithinBehind(c, b[1..], d);
      assert (b + d)[1..] == b[1..] + d;
    }
  }

  lemma {:induction false} WithinItself(a: seq<Order>)
    ensures Within(a, a)
  {
    if a != [] {
      WithinItself(a[1..]);
    }
  }

  lemma {:induction false} RetiredWithin(gone: seq<Gone>)
    ensures Within(Own(RetiredCmds(gone)), Own(Cmds(gone)))
  {
    if gone != [] {
      var before, last := gone[..|gone| - 1], gone[|gone| - 1];
      RetiredWithin(before);
      OwnConcat(Cmds(before), [last.cmd]);
      if last.Retired? {
        OwnConcat(RetiredCmds(before), [last.cmd]);
        WithinItself(Own([last.cmd]));
        WithinConcat(Own(RetiredCmds(before)), Own(Cmds(before)), Own([last.cmd]), Own([last.cmd]));
      } else {
        assert RetiredCmds(gone) == RetiredCmds(before);
        WithinConcat(Own(RetiredCmds(before)), Own(Cmds(before)), [], Own([last.cmd]));
        assert Own(RetiredCmds(before)) + [] == Own(RetiredCmds(before));
      }
    }
  }

  // -------- One call --------

  lemma OwnLast(before: seq<Cmd>, c: Cmd)
    requires IsOwn(c) && forall x <- before :: !IsOwn(x)
    ensures Own(before + [c]) == [AsOrder(c)]
  {
    OwnConcat(before, [c]);
    NoneOwn(before);
    assert [c][1..] == [];
  }

  lemma LastIsOwn(tls: TLS, level: DCProt, before: seq<Cmd>, c: Cmd)
    requires IsOwn(c) && forall x <- before :: !IsOwn(x)
    ensures Own(LevelCommands(tls, level) + (before + [c])) == [AsOrder(c)]
  {
    var levels := LevelCommands(tls, level);
    OwnLast(levels + before, c);
    Regroup(levels, before, [c]);
  }

  lemma PairIsOwn(tls: TLS, level: DCProt, c: Cmd)
    requires IsOwn(c)
    ensures Own(LevelCommands(tls, level) + [PASV_CMD, c]) == [AsOrder(c)]
  {
    LastIsOwn(tls, level, [PASV_CMD], c);
    assert [PASV_CMD] + [c] == [PASV_CMD, c];
  }

  lemma ListIsOwn(tls: TLS, level: DCProt, binary: Cmd, c: Cmd)
    requires IsOwn(c) && !IsOwn(binary)
    ensures Own(LevelCommands(tls, level) + [binary, PASV_CMD, c]) == [AsOrder(c)]
  {
    LastIsOwn(tls, level, [binary, PASV_CMD], c);
    assert [binary, PASV_CMD] + [c] == [binary, PASV_CMD, c];
  }

  /** A call queues exactly one command of its own, and that says what the call says. */
  lemma CallIsOneOrder(tls: TLS, call: Call)
    requires ValidCall(call)
    ensures Own(Commands(tls, call)) == [OrderOf(call)]
  {
    match call
    case Upload(cbk, remote, local, level) => PairIsOwn(tls, level, Cmd(STOR, remote, local, NoResponse, cbk));
    case Download(cbk, remote, local, level) => PairIsOwn(tls, level, Cmd(RETR, remote, local, NoResponse, cbk));
    case ListDirectory(cbk, remote, level) =>
      ListIsOwn(tls, level, Cmd(TYPE, "I", "", NoResponse, None), Cmd(LIST, remote, "", NoResponse, cbk));
    case Simple(verb, arg, rcbk) => OwnLast([], Cmd(verb, arg, "", Callable(rcbk), None));
  }

  lemma {:induction false} NoneOwn(cmds: seq<Cmd>)
    requires forall c <- cmds :: !IsOwn(c)
    ensures Own(cmds) == []
  {
    if cmds != [] {
      NoneOwn(cmds[1..]);
    }
  }

  lemma LevelsNamedConcat(a: seq<Cmd>, b: seq<Cmd>)
    requires LevelsNamed(a) && LevelsNamed(b)
    ensures LevelsNamed(a + b)
  {
    forall c <- a + b ensures NamesItsLevel(c) {
      assert c in a || c in b;
    }
  }

  lemma PairsConcat(a: seq<Cmd>, b: seq<Cmd>)
    ensures Pairs(a + b) == Pairs(a) + Pairs(b)
  {
  }

  lemma LevelsFollow(tls: TLS, level: DCProt, rest: seq<Cmd>)
    requires LevelsNamed(rest)
    ensures Pairs(LevelCommands(tls, level) + rest) == LevelLines(tls, level) + Pairs(rest)
    ensures LevelsNamed(LevelCommands(tls, level) + rest)
  {
    PairsConcat(LevelCommands(tls, level), rest);
    assert Pairs(LevelCommands(tls, level)) == LevelLines(tls, level);
    LevelsNamedConcat(LevelCommands(tls, level), rest);
  }

  /** What a call queues is its script, and each PROT in it sets the level it names. */
  lemma CallFollowsScript(tls: TLS, call: Call)
    requires ValidCall(call)
    ensures Pairs(Commands(tls, call)) == Script(tls, call)
    ensures LevelsNamed(Commands(tls, call))
  {
    match call
    case Upload(cbk, remote, local, level) =>
      var rest := [PASV_CMD, Cmd(STOR, remote, local, NoResponse, cbk)];
      LevelsFollow(tls, level, rest);
      assert Pairs(rest) == [(PASV, ""), (STOR, remote)];
    case Download(cbk, remote, local, level) =>
      var rest := [PASV_CMD, Cmd(RETR, remote, local, NoResponse, cbk)];
      LevelsFollow(tls, level, rest);
      assert Pairs(rest) == [(PASV, ""), (RETR, remote)];
    case ListDirectory(cbk, remote, level) =>
      var rest := [Cmd(TYPE, "I", "", NoResponse, None), PASV_CMD, Cmd(LIST, remote, "", NoResponse, cbk)];
      LevelsFollow(tls, level, rest);
      assert Pairs(rest) == [(TYPE, "I"), (PASV, ""), (LIST, remote)];
    case Simple(_, _, _) =>
  }

  /**
   A call is taken unless it is a file transfer that names no remote file, an upload without a local file, or another
   transfer with nowhere to put its data; of the other commands the API has five.
   */
  predicate Acceptable(o: Order) {
    if IsTransfer(o.verb) then
      && (o.verb != LIST ==> o.arg != "")
      && (if o.verb == STOR then o.local != "" else o.local != "" || o.chunksTo.Some?)
    else o.verb == PWD || o.verb == CWD || o.verb == MKD || o.verb == RMD || o.verb == QUIT
  }

  lemma CallFaultsIff(s: Ftp, call: Call)
    requires !s.fault && (call.Simple? ==> !IsTransfer(call.verb))
    ensures OnCall(s, call).fault <==> !Acceptable(OrderOf(call))
    ensures OnCall(s, call).fault ==> OnCall(s, call) == Fault(s)
  {
  }

  // -------- All calls --------

  lemma OrdersLast(calls: seq<Call>)
    requires calls != []
    ensures OrdersOf(calls) == OrdersOf(calls[..|calls| - 1]) + [OrderOf(calls[|calls| - 1])]
  {
  }

  lemma {:induction false} AllCallsOrdered(tls: TLS, calls: seq<Call>)
    requires ValidCalls(calls)
    ensures Own(AllCommands(tls, calls)) == OrdersOf(calls)
    ensures Pairs(AllCommands(tls, calls)) == Scripts(tls, calls) && LevelsNamed(AllCommands(tls, calls))
  {
    if calls != [] {
      var n := |calls| - 1;
      var before, last := AllCommands(tls, calls[..n]), Commands(tls, calls[n]);
      AllCallsOrdered(tls, calls[..n]);
      CallIsOneOrder(tls, calls[n]);
      CallFollowsScript(tls, calls[n]);
      OwnConcat(before, last);
      PairsConcat(before, last);
      LevelsNamedConcat(before, last);
      OrdersLast(calls);
    }
  }

  /** What was called is what was dropped, what has gone and what is queued, in order; and what was sent is in it. */
  ghost predicate AsCalled(s: Ftp) {
    var all, log := OrdersOf(s.log.calls), s.log;
    && all == Own(log.lost) + Own(Cmds(log.gone)) + Own(s.ctl.q)
    && Scripts(s.config.tls, log.calls) == Pairs(log.lost) + Pairs(Cmds(log.gone)) + Pairs(s.ctl.q)
    && Own(log.sent) == Own(RetiredCmds(log.gone)) + Own(Outstanding(s))
    && Within(Own(log.sent), all)
    && LevelsNamed(log.enqueued)
  }

  lemma SentWithin(s: Ftp)
    requires Ledger(s.ctl.q, s.log, Outstanding(s))
    ensures Own(s.log.sent) == Own(RetiredCmds(s.log.gone)) + Own(Outstanding(s))
    ensures Within(Own(s.log.sent), Own(s.log.lost) + Own(Cmds(s.log.gone)) + Own(s.ctl.q))
  {
    var log, front, n := s.log, Outstanding(s), |Outstanding(s)|;
    OwnConcat(RetiredCmds(log.gone), front);
    RetiredWithin(log.gone);
    assert s.ctl.q == front + s.ctl.q[n..];
    OwnConcat(front, s.ctl.q[n..]);
    WithinItself(Own(front));
    WithinConcat(Own(front), Own(front), [], Own(s.ctl.q[n..]));
    assert Own(front) + [] == Own(front);
    WithinConcat(Own(RetiredCmds(log.gone)), Own(Cmds(log.gone)), Own(front), Own(s.ctl.q));
    WithinBehind(Own(log.sent), Own(log.lost), Own(Cmds(log.gone)) + Own(s.ctl.q));
    Regroup(Own(log.lost), Own(Cmds(log.gone)), Own(s.ctl.q));
  }

  /**
   Over every run that has not faulted: the lines of the session on the wire are the commands sent, and those are the
   commands of the calls, in order, each with its call's argument, local file and callback.
   */
  lemma WireFollowsCalls(config: Config, disk: map<string, seq<byte>>, es: seq<Event>)
    requires LiveRun(Init(config, disk), es)
    ensures var s := Run(Init(config, disk), es);
            Spelled(s) && AsCalled(s)
  {
    var s := Run(Init(config, disk), es);
    WireIsSent(config, disk, es);
    RunHistory(config, disk, es);
    RunLost(config, disk, es);
    AllCallsOrdered(s.config.tls, s.log.calls);
    OwnThree(s.log.lost, Cmds(s.log.gone), s.ctl.q);
    SentWithin(s);
  }

  /** The call whose own command is the first such in the queue. */
  function CallOfFront(s: Ftp): Call
    requires 0 < |Own(s.ctl.q)| <= |s.log.calls|
  {
    s.log.calls[|s.log.calls| - |Own(s.ctl.q)|]
  }

  lemma {:induction false} FrontIsItsCalls(calls: seq<Call>, q: seq<Cmd>, before: seq<Order>)
    requires q != [] && IsOwn(q[0]) && OrdersOf(calls) == before + Own(q) && ValidCalls(calls)
    ensures 0 < |Own(q)| <= |calls|
    ensures var call := calls[|calls| - |Own(q)|];
            AsOrder(q[0]) == OrderOf(call) && (call.Simple? <==> IsGen(q[0].verb))
  {
    var rest := Own(q);
    assert rest[0] == AsOrder(q[0]);
    assert (before + rest)[|before|] == rest[0];
    assert ValidCall(calls[|before|]);
  }

  /** Where the queue stands in the calls. */
  lemma QueueInCalls(config: Config, disk: map<string, seq<byte>>, es: seq<Event>) returns (before: seq<Order>)
    requires LiveRun(Init(config, disk), es)
    ensures var s := Run(Init(config, disk), es);
            && OrdersOf(s.log.calls) == before + Own(s.ctl.q) && ValidCalls(s.log.calls)
            && (InTransfer(s) ==> s.ctl.q != [] && IsTransfer(s.ctl.q[0].verb)) && LevelsNamed(s.ctl.q)
  {
    var s := Run(Init(config, disk), es);
    WireFollowsCalls(config, disk, es);
    RunHistory(config, disk, es);
    RunLost(config, disk, es);
    before := Own(s.log.lost) + Own(Cmds(s.log.gone));
    forall c <- s.ctl.q ensures NamesItsLevel(c) {
      assert c in s.log.enqueued;
    }
  }

  /** The transfer in flight is that of its own call: verb, remote file, local file and callback. */
  lemma TransferIsItsCalls(config: Config, disk: map<string, seq<byte>>, es: seq<Event>)
    requires LiveRun(Init(config, disk), es)
    ensures var s := Run(Init(config, disk), es);
            InTransfer(s) ==>
              && s.ctl.q != [] && 0 < |Own(s.ctl.q)| <= |s.log.calls|
              && AsOrder(s.ctl.q[0]) == OrderOf(CallOfFront(s)) && !CallOfFront(s).Simple?
  {
    var s := Run(Init(config, disk), es);
    var before := QueueInCalls(config, disk, es);
    if InTransfer(s) {
      FrontIsItsCalls(s.log.calls, s.ctl.q, before);
    }
  }
}
