/**
 What every reachable state of the FTP engine satisfies: which command is in flight, the shape of the queue,
 when the data channel and the local file are open, and that no front or pop meets an empty queue. The events that
 break this are exactly those excluded by `Orderly`.
 */
module FtpInvariant {
  import opened Wrappers
  import opened Bytes
  import opened FtpAddress
  import opened FtpModel

  /** A queued command has been sent and not yet retired. */
  predicate InFlight(s: Ftp) {
    s.ctl.inProgress && s.ctl.state in {Gen, Pasv, Data, Mark, Final}
  }

  predicate InTransfer(s: Ftp) {
    s.ctl.inProgress && s.ctl.state in {Data, Mark, Final}
  }

  // -------- The queue --------

  predicate CmdOk(c: Cmd) {
    && (c.verb == STOR ==> c.local != "")
    && (c.verb != STOR && c.verb != RETR ==> c.local == "")
    && (c.tcbk.Some? ==> IsTransfer(c.verb))
    && (c.rcbk != NoResponse ==> IsGen(c.verb))
    && (c.verb == PROT <==> c.rcbk.SetLevel?)
  }

  ghost predicate CmdsOk(q: seq<Cmd>) {
    forall c <- q :: CmdOk(c)
  }

  /** Single commands and adjacent PASV-transfer pairs, nothing else. */
  predicate Paired(q: seq<Cmd>) {
    || q == []
    || (IsGen(q[0].verb) && Paired(q[1..]))
    || (|q| >= 2 && q[0].verb == PASV && IsTransfer(q[1].verb) && Paired(q[2..]))
  }

  lemma DropConcat(a: seq<Cmd>, b: seq<Cmd>, n: nat)
    requires n <= |a|
    ensures (a + b)[n..] == a[n..] + b
  {
  }

  lemma {:induction false} PairedConcat(a: seq<Cmd>, b: seq<Cmd>)
    requires Paired(a) && Paired(b)
    ensures Paired(a + b)
  {
    if a == [] {
      assert a + b == b;
    } else if IsGen(a[0].verb) {
      PairedConcat(a[1..], b);
      DropConcat(a, b, 1);
    } else {
      PairedConcat(a[2..], b);
      DropConcat(a, b, 2);
    }
  }

  lemma LevelCommandsPaired(tls: TLS, level: DCProt)
    ensures Paired(LevelCommands(tls, level)) && CmdsOk(LevelCommands(tls, level))
  {
    if SecureControl(tls) {
      assert LevelCommands(tls, level)[1..][1..] == [];
    }
  }

  lemma PairIsPaired(t: Cmd)
    requires IsTransfer(t.verb) && CmdOk(t)
    ensures Paired([PASV_CMD, t]) && CmdsOk([PASV_CMD, t])
  {
    assert [PASV_CMD, t][2..] == [];
  }

  lemma CmdsOkConcat(a: seq<Cmd>, b: seq<Cmd>)
    requires CmdsOk(a) && CmdsOk(b)
    ensures CmdsOk(a + b)
  {
    forall c <- a + b ensures CmdOk(c) {
      assert c in a || c in b;
    }
  }

  lemma LeveledTransferPaired(tls: TLS, level: DCProt, t: Cmd)
    requires IsTransfer(t.verb) && CmdOk(t)
    ensures Paired(LevelCommands(tls, level) + [PASV_CMD, t]) && CmdsOk(LevelCommands(tls, level) + [PASV_CMD, t])
  {
    LevelCommandsPaired(tls, level);
    PairIsPaired(t);
    PairedConcat(LevelCommands(tls, level), [PASV_CMD, t]);
    CmdsOkConcat(LevelCommands(tls, level), [PASV_CMD, t]);
  }

  lemma ListingPaired(tls: TLS, call: Call)
    requires ValidCall(call) && call.ListDirectory?
    ensures Paired(Commands(tls, call)) && CmdsOk(Commands(tls, call))
  {
    var list := Cmd(LIST, call.remote, "", NoResponse, call.cbk);
    var three := [Cmd(TYPE, "I", "", NoResponse, None), PASV_CMD, list];
    PairIsPaired(list);
    assert three[1..] == [PASV_CMD, list];
    LevelCommandsPaired(tls, call.level);
    PairedConcat(LevelCommands(tls, call.level), three);
    CmdsOkConcat(LevelCommands(tls, call.level), three);
  }

  /** What one API call queues is well formed and paired. */
  lemma CommandsPaired(tls: TLS, call: Call)
    requires ValidCall(call)
    ensures Paired(Commands(tls, call)) && CmdsOk(Commands(tls, call))
  {
    match call
    case Upload(cbk, remote, local, level) =>
      LeveledTransferPaired(tls, level, Cmd(STOR, remote, local, NoResponse, cbk));
    case Download(cbk, remote, local, level) =>
      LeveledTransferPaired(tls, level, Cmd(RETR, remote, local, NoResponse, cbk));
    case ListDirectory(_, _, _) => ListingPaired(tls, call);
    case Simple(_, _, _) => assert Commands(tls, call)[1..] == [];
  }

  /** The whole queue: paired, except that the transfer in progress stands alone at the front. */
  predicate QueueShape(s: Ftp) {
    if InTransfer(s) then s.ctl.q != [] && IsTransfer(s.ctl.q[0].verb) && Paired(s.ctl.q[1..]) else Paired(s.ctl.q)
  }

  /** The front of the queue is of the kind the state names. */
  predicate FrontMatches(s: Ftp) {
    && (InFlight(s) ==> s.ctl.q != [])
    && (s.ctl.inProgress && s.ctl.state == Gen ==> IsGen(s.ctl.q[0].verb))
    && (s.ctl.inProgress && s.ctl.state == Pasv ==> s.ctl.q[0].verb == PASV)
  }

  /** A clear flag means an empty queue; of the states of a command only DATA can be left over. */
  predicate IdleMeansEmpty(s: Ftp) {
    !s.ctl.inProgress ==> s.ctl.q == [] && s.ctl.state !in {Gen, Pasv, Mark}
  }

  /**
   When the data channel and the local file are open. The channel may have closed before the preliminary reply; a
   local file opened after that belongs to a download.
   */
  predicate Devices(s: Ftp)
    requires InTransfer(s) ==> s.ctl.q != []
  {
    && (s.xfer.dataChannel.Some? ==> InTransfer(s))
    && (s.xfer.fileDevice.Some? ==>
          InTransfer(s) && s.ctl.state != Data && (s.xfer.dataChannel.Some? || s.ctl.q[0].verb == RETR))
    && (s.ctl.inProgress && s.ctl.state == Final ==> s.xfer.dataChannel.Some?)
    && (s.xfer.dataChannel.Some? && s.ctl.state != Data ==> (s.xfer.fileDevice.Some? <==> s.ctl.q[0].local != ""))
    && (s.xfer.fileDevice.Some? ==>
          && s.xfer.fileDevice.value.path == s.ctl.q[0].local && s.ctl.q[0].local in s.xfer.disk
          && (s.xfer.fileDevice.value.pending > 0 ==> s.ctl.q[0].verb == STOR)
          && s.xfer.fileDevice.value.pending <= 1)
    && (s.xfer.dataChannel.Some? && s.ctl.state == Data ==>
          !s.xfer.dataChannel.value.handshaking && s.xfer.dataChannel.value.out == [])
    && (s.xfer.fileDevice.Some? && s.xfer.dataChannel.Some? && s.xfer.dataChannel.value.handshaking ==>
          s.xfer.fileDevice.value.pending == 0)
  }

  /**
   The control part: the queue, the flag and the state fit together, and the data channel is open for a transfer only.
   */
  ghost predicate Sound(s: Ftp) {
    && !s.fault && QueueShape(s) && FrontMatches(s) && IdleMeansEmpty(s) && CmdsOk(s.ctl.q) && s.ctl.state != Check
    && (s.xfer.dataChannel.Some? ==> InTransfer(s))
    && (s.ctl.inProgress && s.ctl.state == Final ==> s.xfer.dataChannel.Some?)
  }

  ghost predicate Inv(s: Ftp) {
    Sound(s) && Devices(s)
  }

  // -------- The control part survives everything but a fault --------

  lemma SoundNext(s: Ftp)
    requires !s.fault && s.xfer.dataChannel.None? && !s.ctl.inProgress
    requires Paired(s.ctl.q) && CmdsOk(s.ctl.q) && s.ctl.state != Check
    requires s.ctl.q == [] ==> s.ctl.state !in {Gen, Pasv, Mark}
    ensures Sound(ProcessNextCmd(s)) && ProcessNextCmd(s).xfer == s.xfer
  {
  }

  lemma CmdsOkTail(q: seq<Cmd>, n: nat)
    requires CmdsOk(q) && n <= |q|
    ensures CmdsOk(q[n..])
  {
    forall c <- q[n..] ensures CmdOk(c) {
      assert c in q;
    }
  }

  /** Popping the command in flight and sending the next one. */
  lemma SoundSkip(s: Ftp, n: nat)
    requires !s.fault && s.xfer.dataChannel.None? && n <= |s.ctl.q|
    requires Paired(s.ctl.q[n..]) && CmdsOk(s.ctl.q) && s.ctl.state != Check
    requires |s.ctl.q| == n ==> s.ctl.state !in {Gen, Pasv, Mark}
    ensures Sound(SkipCommand(s, n)) && SkipCommand(s, n).xfer == s.xfer
  {
    CmdsOkTail(s.ctl.q, n);
    SoundNext(Pop(s, n));
  }

  lemma SoundGen(s: Ftp, msg: seq<byte>)
    requires Sound(s) && s.ctl.inProgress && s.ctl.state == Gen && '1' <= Code(msg) <= '5'
    ensures Sound(OnReply(s, msg))
  {
    GenReply(s, msg);
    SoundSkip(NoteAnswer(RunResponse(To(s, Ready), s.ctl.q[0], msg), msg), 1);
  }

  lemma SoundAccepted(s: Ftp, msg: seq<byte>)
    requires Sound(s) && s.ctl.inProgress && s.ctl.state == Pasv && HasAddress(msg)
    ensures Sound(ProcessPasvResponse(To(s, Data), msg))
  {
    CmdsOkTail(s.ctl.q, 1);
    assert s.ctl.q[1..][1..] == s.ctl.q[2..];
  }

  /** A reply of class 2 to PASV without an address that can be connected to faults. */
  lemma AddressOrFault(s: Ftp, msg: seq<byte>)
    requires !s.fault && s.ctl.inProgress && s.ctl.state == Pasv && s.ctl.q != [] && Code(msg) == '2'
    ensures OnReply(s, msg).fault <==> !HasAddress(msg)
  {
    PasvAccepted(s, msg);
  }

  lemma SoundPasv(s: Ftp, msg: seq<byte>)
    requires Sound(s) && s.ctl.inProgress && s.ctl.state == Pasv && Rule(Pasv, Code(msg)).Some?
    requires !OnReply(s, msg).fault
    ensures Sound(OnReply(s, msg))
  {
    if Code(msg) == '2' {
      AddressOrFault(s, msg);
      PasvAccepted(s, msg);
      SoundAccepted(s, msg);
    } else {
      PasvSkipped(s, msg);
      SoundSkip(To(s, if Code(msg) == '1' then Data else Ready), 2);
    }
  }

  /** The preliminary reply only opens devices. */
  lemma PreliminaryFrame(s: Ftp)
    requires s.ctl.q != []
    ensures var r := ProcessDataCmdResponse(s, '1');
            && r.config == s.config && r.ctl == s.ctl && r.log == s.log && r.talk == s.talk && r.dcProt == s.dcProt
            && r.xfer.dataChannel.Some? == s.xfer.dataChannel.Some?
  {
    var s1 := InitializeFileDevice(s);
    assert s1.config == s.config && s1.ctl == s.ctl && s1.log == s.log && s1.talk == s.talk && s1.dcProt == s.dcProt;
    assert s1.xfer.dataChannel == s.xfer.dataChannel;
  }

  lemma SoundTransfer(s: Ftp, msg: seq<byte>)
    requires Sound(s) && s.ctl.inProgress && s.ctl.state in {Data, Mark} && Rule(s.ctl.state, Code(msg)).Some?
    requires !OnReply(s, msg).fault
    ensures Sound(OnReply(s, msg))
  {
    if Code(msg) == '1' {
      PreliminaryReply(s, msg);
      PreliminaryFrame(To(s, Mark));
    } else if Code(msg) == '2' {
      CompletionReply(s, msg);
      if s.xfer.dataChannel.None? {
        SoundSkip(To(s, Final), 1);
      }
    } else {
      BreakOffReply(s, msg);
      SoundSkip(ResetDevices(To(s, Final)), 1);
    }
  }

  /** With nothing in flight the code takes the front of an empty queue, or pops it. */
  lemma UnaskedBreaks(s: Ftp, msg: seq<byte>)
    requires Sound(s) && !s.ctl.inProgress && s.ctl.state == Data && Code(msg) in {'1', '4', '5'}
    ensures OnReply(s, msg).fault
  {
    if Code(msg) == '1' {
      PreliminaryReply(s, msg);
    } else {
      BreakOffReply(s, msg);
    }
  }

  lemma SoundLogin(s: Ftp, msg: seq<byte>)
    requires Sound(s) && !InFlight(s) && s.ctl.state != Data && Rule(s.ctl.state, Code(msg)).Some?
    ensures Sound(OnReply(s, msg)) && OnReply(s, msg).xfer == s.xfer && !InTransfer(OnReply(s, msg))
  {
    if s.ctl.state == Pass && Code(msg) != '3' {
      LoginReply(s, msg);
      if Code(msg) == '2' {
        SoundNext(s.(ctl := s.ctl.(state := Ready, inProgress := false)));
        assert Paired(s.ctl.q);
      }
    } else {
      LoginTalk(s, msg);
    }
  }

  lemma SoundReply(s: Ftp, msg: seq<byte>)
    requires Sound(s) && !OnReply(s, msg).fault
    ensures Sound(OnReply(s, msg))
  {
    if Rule(s.ctl.state, Code(msg)).None? {
      IgnoredReply(s, msg);
    } else if !InFlight(s) {
      if s.ctl.state == Data {
        UnaskedBreaks(s, msg);
      } else {
        SoundLogin(s, msg);
      }
    } else if s.ctl.state == Gen {
      SoundGen(s, msg);
    } else if s.ctl.state == Pasv {
      SoundPasv(s, msg);
    } else {
      SoundTransfer(s, msg);
    }
  }

  lemma AppendKeeps(s: Ftp, call: Call)
    requires Sound(s) && ValidCall(call)
    ensures QueueShape(Append(s, call)) && CmdsOk(Append(s, call).ctl.q)
  {
    var cmds := Commands(s.config.tls, call);
    CommandsPaired(s.config.tls, call);
    CmdsOkConcat(s.ctl.q, cmds);
    if InTransfer(s) {
      PairedConcat(s.ctl.q[1..], cmds);
      assert (s.ctl.q + cmds)[1..] == s.ctl.q[1..] + cmds;
    } else {
      PairedConcat(s.ctl.q, cmds);
    }
  }

  lemma CommandsNotEmpty(tls: TLS, call: Call)
    ensures |Commands(tls, call)| > 0
  {
  }

  /** An API call never faults, whatever is in flight. */
  lemma SoundCall(s: Ftp, call: Call)
    requires Sound(s) && ValidCall(call)
    ensures Sound(OnCall(s, call)) && OnCall(s, call).xfer == s.xfer
    ensures s.ctl.inProgress ==> OnCall(s, call) == Append(s, call)
    ensures InFlight(s) ==> OnCall(s, call).ctl.q[0] == s.ctl.q[0]
  {
    var s1 := Append(s, call);
    AppendKeeps(s, call);
    CommandsNotEmpty(s.config.tls, call);
    assert s1.xfer == s.xfer && |s1.ctl.q| > 0;
    if s.ctl.inProgress {
      assert InFlight(s) ==> s1.ctl.q[0] == s.ctl.q[0];
    } else {
      SoundNext(s1);
    }
  }

  lemma SoundClosed(s: Ftp)
    requires Sound(s) && s.xfer.dataChannel.Some?
    ensures Sound(OnDataChannelDisconnect(s))
  {
    if s.ctl.state == Final {
      SoundSkip(ResetDevices(NotifyEnd(s, s.ctl.q[0])), 1);
    }
  }

  /** What the devices report leaves the control state alone, and neither opens nor closes the data channel. */
  lemma DeviceFrame(s: Ftp, e: Event)
    requires Sound(s) && Possible(s, e) && (e.DataChunk? || e.FileChunk? || e.FileEnd? || e.DataHandshake?)
    ensures var r := Step(s, e);
            && r.config == s.config && r.ctl == s.ctl && r.log == s.log && r.dcProt == s.dcProt
            && r.talk.answers == s.talk.answers && r.xfer.dataChannel.Some? == s.xfer.dataChannel.Some?
  {
  }

  /** The preliminary reply cannot open what the transfer at the front needs at once. */
  predicate CannotOpen(s: Ftp)
    requires s.ctl.q != []
  {
    var c := s.ctl.q[0];
    || (c.local != "" && s.xfer.fileDevice.Some?)
    || (if s.dcProt == Protected then s.xfer.dataChannel.None? else c.verb == STOR && c.local !in s.xfer.disk)
  }

  /** The events on which the code fails; each is a check on the state and the event. */
  predicate Fatal(s: Ftp, e: Event) {
    match e
    case Reply(msg) =>
      if !s.ctl.inProgress then s.ctl.state == Data && Code(msg) in {'1', '4', '5'}
      else if s.ctl.state == Pasv then Code(msg) == '2' && !HasAddress(msg)
      else s.ctl.state == Data && Code(msg) == '1' && s.ctl.q != [] && CannotOpen(s)
    case DataHandshake =>
      s.ctl.q != [] && s.ctl.q[0].verb == STOR
      && (s.xfer.fileDevice.None? || s.xfer.fileDevice.value.path !in s.xfer.disk)
    case FileChunk(_, _) => s.xfer.dataChannel.None?
    case FileEnd => s.xfer.dataChannel.None?
    case _ => false
  }

  lemma OpensOrFaults(s: Ftp, msg: seq<byte>)
    requires Sound(s) && s.ctl.inProgress && s.ctl.state == Data && Code(msg) == '1'
    ensures OnReply(s, msg).fault <==> CannotOpen(s)
  {
    assert CmdOk(s.ctl.q[0]);
    PreliminaryReply(s, msg);
  }

  lemma ReplyFaultsIff(s: Ftp, msg: seq<byte>)
    requires Sound(s)
    ensures OnReply(s, msg).fault <==> Fatal(s, Reply(msg))
  {
    if Rule(s.ctl.state, Code(msg)).None? {
      IgnoredReply(s, msg);
    } else if !InFlight(s) {
      if s.ctl.state == Data {
        UnaskedBreaks(s, msg);
      } else {
        SoundLogin(s, msg);
      }
    } else if s.ctl.state == Gen {
      SoundGen(s, msg);
    } else if s.ctl.state == Pasv {
      if Code(msg) == '2' {
        AddressOrFault(s, msg);
      } else {
        PasvSkipped(s, msg);
      }
    } else if s.ctl.state == Data && Code(msg) == '1' {
      OpensOrFaults(s, msg);
    } else if Code(msg) == '2' {
      CompletionReply(s, msg);
    } else {
      BreakOffReply(s, msg);
    }
  }

  /** A possible event faults if and only if it is fatal. */
  lemma FaultsIff(s: Ftp, e: Event)
    requires Sound(s) && Possible(s, e)
    ensures Step(s, e).fault <==> Fatal(s, e)
  {
    match e
    case Api(call) => SoundCall(s, call);
    case Reply(msg) => ReplyFaultsIff(s, msg);
    case DataClosed => SoundClosed(s);
    case _ =>
  }

  /** Every possible step that does not fault keeps the control part. */
  lemma StepSound(s: Ftp, e: Event)
    requires Sound(s) && Possible(s, e) && !Step(s, e).fault
    ensures Sound(Step(s, e))
  {
    match e
    case Api(call) => SoundCall(s, call);
    case Reply(msg) => SoundReply(s, msg);
    case DataClosed => SoundClosed(s);
    case Connect =>
    case ControlHandshake =>
    case _ => DeviceFrame(s, e);
  }

  /** The run has not ended in a fault. */
  predicate LiveRun(s: Ftp, es: seq<Event>) {
    PossibleRun(s, es) && !Run(s, es).fault
  }

  lemma LiveBefore(s: Ftp, es: seq<Event>)
    requires LiveRun(s, es) && es != []
    ensures var before, e := es[..|es| - 1], es[|es| - 1];
            LiveRun(s, before) && Possible(Run(s, before), e) && Run(s, es) == Step(Run(s, before), e)
  {
  }

  lemma {:induction false} RunSound(s: Ftp, es: seq<Event>)
    requires Sound(s) && LiveRun(s, es)
    ensures Sound(Run(s, es))
    decreases |es|
  {
    if es != [] {
      LiveBefore(s, es);
      RunSound(s, es[..|es| - 1]);
      StepSound(Run(s, es[..|es| - 1]), es[|es| - 1]);
    }
  }

  // -------- The events that keep it --------

  /** The preliminary reply finds everything that the transfer at the front needs at once. */
  predicate CanBegin(s: Ftp)
    requires s.ctl.q != []
  {
    && (s.ctl.q[0].verb == STOR ==> s.ctl.q[0].local in s.xfer.disk)
    && (s.xfer.dataChannel.None? ==> s.dcProt == Clear && s.ctl.q[0].verb != STOR)
  }

  /**
   What the code needs of a reply beyond its being possible. Four kinds break it: a reply of class 1, 4 or 5 with
   nothing in flight, when class 1 to the last PASV has left the state DATA; class 2 to PASV without an address to
   connect to; the preliminary reply to the upload of a file that does not exist, or, when the data channel has closed
   before it, to an upload or a protected transfer; and the completion reply to a download into a local file whose
   data channel closed before the preliminary reply.
   */
  predicate Orderly(s: Ftp, e: Event) {
    match e
    case Reply(msg) =>
      if !s.ctl.inProgress then !(s.ctl.state == Data && Code(msg) in {'1', '4', '5'})
      else
        && !(s.ctl.state == Pasv && Code(msg) == '2' && !HasAddress(msg))
        && !(s.ctl.state == Data && Code(msg) == '1' && s.ctl.q != [] && !CanBegin(s))
        && !(s.ctl.state == Mark && Code(msg) == '2' && s.xfer.dataChannel.None? && s.xfer.fileDevice.Some?)
    case _ => true
  }

  /** Popping the command in flight and sending the next one. */
  lemma SkipKeeps(s: Ftp, n: nat)
    requires !s.fault && s.xfer.dataChannel.None? && s.xfer.fileDevice.None? && n <= |s.ctl.q|
    requires Paired(s.ctl.q[n..]) && CmdsOk(s.ctl.q) && s.ctl.state != Check
    requires |s.ctl.q| == n ==> s.ctl.state !in {Gen, Pasv, Mark}
    ensures Inv(SkipCommand(s, n))
  {
    SoundSkip(s, n);
  }

  lemma GenReplyKeeps(s: Ftp, msg: seq<byte>)
    requires Inv(s) && s.ctl.inProgress && s.ctl.state == Gen && '1' <= Code(msg) <= '5'
    ensures Inv(OnReply(s, msg))
  {
    GenReply(s, msg);
    SkipKeeps(NoteAnswer(RunResponse(To(s, Ready), s.ctl.q[0], msg), msg), 1);
  }

  lemma PasvReplyKeeps(s: Ftp, msg: seq<byte>)
    requires Inv(s) && s.ctl.inProgress && s.ctl.state == Pasv && HasAddress(msg)
    ensures Inv(ProcessPasvResponse(To(s, Data), msg))
  {
    forall c <- s.ctl.q[1..] ensures CmdOk(c) {
      assert c in s.ctl.q;
    }
    assert s.ctl.q[1..][1..] == s.ctl.q[2..];
  }

  lemma PreliminaryKeeps(s: Ftp)
    requires Inv(s) && s.ctl.inProgress && s.ctl.state == Data
    requires CanBegin(s)
    ensures Inv(ProcessDataCmdResponse(To(s, Mark), '1'))
  {
    assert CmdOk(s.ctl.q[0]);
  }

  lemma PasvStateKeeps(s: Ftp, msg: seq<byte>)
    requires Inv(s) && s.ctl.inProgress && s.ctl.state == Pasv && Orderly(s, Reply(msg))
    ensures Inv(OnReply(s, msg))
  {
    if Rule(Pasv, Code(msg)).None? {
      IgnoredReply(s, msg);
    } else if Code(msg) == '2' {
      PasvAccepted(s, msg);
      PasvReplyKeeps(s, msg);
    } else {
      PasvSkipped(s, msg);
      SkipKeeps(To(s, if Code(msg) == '1' then Data else Ready), 2);
    }
  }

  lemma DataStateKeeps(s: Ftp, msg: seq<byte>)
    requires Inv(s) && s.ctl.inProgress && s.ctl.state == Data && Orderly(s, Reply(msg))
    ensures Inv(OnReply(s, msg))
  {
    var code := Code(msg);
    if code == '1' {
      PreliminaryKeeps(s);
    } else if code == '4' || code == '5' {
      SkipKeeps(ResetDevices(To(s, Final)), 1);
    }
  }

  lemma MarkStateKeeps(s: Ftp, msg: seq<byte>)
    requires Inv(s) && s.ctl.inProgress && s.ctl.state == Mark && Orderly(s, Reply(msg))
    ensures Inv(OnReply(s, msg))
  {
    var code := Code(msg);
    if code == '4' {
      SkipKeeps(ResetDevices(To(s, Final)), 1);
    } else if code == '2' && s.xfer.dataChannel.None? {
      SkipKeeps(To(s, Final), 1);
    }
  }

  lemma LoginStateKeeps(s: Ftp, msg: seq<byte>)
    requires Inv(s) && !InFlight(s) && Orderly(s, Reply(msg))
    ensures Inv(OnReply(s, msg))
  {
    if Rule(s.ctl.state, Code(msg)).None? {
      IgnoredReply(s, msg);
    } else {
      SoundLogin(s, msg);
    }
  }

  lemma ReplyKeeps(s: Ftp, msg: seq<byte>)
    requires Inv(s) && Orderly(s, Reply(msg))
    ensures Inv(OnReply(s, msg))
  {
    if Rule(s.ctl.state, Code(msg)).None? {
      IgnoredReply(s, msg);
    } else if !InFlight(s) {
      LoginStateKeeps(s, msg);
    } else if s.ctl.state == Gen {
      GenReplyKeeps(s, msg);
    } else if s.ctl.state == Pasv {
      PasvStateKeeps(s, msg);
    } else if s.ctl.state == Data {
      DataStateKeeps(s, msg);
    } else {
      MarkStateKeeps(s, msg);
    }
  }

  lemma CallKeeps(s: Ftp, call: Call)
    requires Inv(s) && ValidCall(call)
    ensures Inv(OnCall(s, call))
  {
    SoundCall(s, call);
  }

  lemma ClosedKeeps(s: Ftp)
    requires Inv(s) && s.xfer.dataChannel.Some?
    ensures Inv(OnDataChannelDisconnect(s))
  {
    if s.ctl.state == Final {
      SkipKeeps(ResetDevices(NotifyEnd(s, s.ctl.q[0])), 1);
    }
  }

  lemma ChunkKeeps(s: Ftp, data: seq<byte>, more: bool)
    requires Inv(s) && s.xfer.dataChannel.Some?
    ensures Inv(OnDataChannelRead(s, data, more))
  {
  }

  lemma FileChunkKeeps(s: Ftp, b: seq<byte>, more: bool)
    requires Inv(s) && s.xfer.fileDevice.Some? && s.xfer.fileDevice.value.pending > 0
    ensures Inv(OnFileRead(s, b, more))
  {
  }

  lemma FileEndKeeps(s: Ftp)
    requires Inv(s) && s.xfer.fileDevice.Some? && s.xfer.fileDevice.value.pending > 0
    ensures Inv(OnFileDisconnect(s))
  {
  }

  lemma HandshakeKeeps(s: Ftp)
    requires Inv(s) && s.xfer.dataChannel.Some? && s.xfer.dataChannel.value.handshaking
    ensures Inv(OnDataHandshake(s))
  {
    assert CmdOk(s.ctl.q[0]);
  }

  lemma StepKeeps(s: Ftp, e: Event)
    requires Inv(s) && Possible(s, e) && Orderly(s, e)
    ensures Inv(Step(s, e))
  {
    match e
    case Api(call) => CallKeeps(s, call);
    case Reply(msg) => ReplyKeeps(s, msg);
    case DataClosed => ClosedKeeps(s);
    case Connect =>
    case ControlHandshake =>
    case DataChunk(data, more) => ChunkKeeps(s, data, more);
    case FileChunk(n, more) => FileChunkKeeps(s, Pending(s.xfer, n), more);
    case FileEnd => FileEndKeeps(s);
    case DataHandshake => HandshakeKeeps(s);
  }

  lemma CannotBeginBreaks(s: Ftp, msg: seq<byte>)
    requires Inv(s) && s.ctl.inProgress && s.ctl.state == Data && !Orderly(s, Reply(msg))
    ensures !Inv(OnReply(s, msg))
  {
    assert CmdOk(s.ctl.q[0]);
    assert OnReply(s, msg) == ProcessDataCmdResponse(To(s, Mark), '1');
  }

  /** The file device is left behind: the transfer is retired, and nothing will close it. */
  lemma LeftoverBreaks(s: Ftp, msg: seq<byte>)
    requires Inv(s) && s.ctl.inProgress && s.ctl.state == Mark && !Orderly(s, Reply(msg))
    ensures !Inv(OnReply(s, msg))
  {
    CompletionReply(s, msg);
    assert Paired(s.ctl.q[1..]);
  }

  /** The invariant survives a possible event if and only if the event is orderly. */
  lemma StepKeepsIff(s: Ftp, e: Event)
    requires Inv(s) && Possible(s, e)
    ensures Inv(Step(s, e)) <==> Orderly(s, e)
  {
    if Orderly(s, e) {
      StepKeeps(s, e);
    } else if !s.ctl.inProgress {
      UnaskedBreaks(s, e.msg);
    } else if s.ctl.state == Pasv {
      AddressOrFault(s, e.msg);
    } else if s.ctl.state == Data {
      CannotBeginBreaks(s, e.msg);
    } else {
      LeftoverBreaks(s, e.msg);
    }
  }

  // -------- Runs --------

  predicate OrderlyRun(s: Ftp, es: seq<Event>)
    decreases |es|
  {
    es != [] ==>
      var before := es[..|es| - 1];
      && OrderlyRun(s, before)
      && Possible(Run(s, before), es[|es| - 1]) && Orderly(Run(s, before), es[|es| - 1])
  }

  lemma InitHolds(config: Config, disk: map<string, seq<byte>>)
    ensures Inv(Init(config, disk))
  {
  }

  lemma {:induction false} RunKeeps(s: Ftp, es: seq<Event>)
    requires Inv(s) && OrderlyRun(s, es)
    ensures Inv(Run(s, es))
    decreases |es|
  {
    if es != [] {
      RunKeeps(s, es[..|es| - 1]);
      StepKeeps(Run(s, es[..|es| - 1]), es[|es| - 1]);
    }
  }

  /** An orderly run does not fault. */
  lemma {:induction false} OrderlyIsLive(s: Ftp, es: seq<Event>)
    requires Inv(s) && OrderlyRun(s, es)
    ensures LiveRun(s, es)
    decreases |es|
  {
    if es != [] {
      OrderlyIsLive(s, es[..|es| - 1]);
      RunKeeps(s, es);
    }
  }
}
