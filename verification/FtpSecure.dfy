/**
 The data channel of a transfer: where it connects, and when it is under a TLS handshake. A transfer that its own call
 asked to protect, upload, download or listing, starts a handshake with its preliminary reply, which only the
 handshake's end, or the channel's, takes away, and until then the local file of an upload is not read.
 */
module FtpSecure {
  import opened Wrappers
  import opened Bytes
  import opened FtpAddress
  import opened FtpModel
  import opened FtpInvariant
  import opened FtpHistory
  import opened FtpOrder
  import opened FtpProtection
  import opened FtpCalls

  /** Since the data channel was opened its handshake has ended. */
  predicate Shaken(s: Ftp, es: seq<Event>)
    decreases |es|
  {
    es != [] &&
      var before, e := es[..|es| - 1], es[|es| - 1];
      e.DataHandshake? || (Shaken(s, before) && Run(s, before).xfer.dataChannel.Some?)
  }

  /** Whether the data channel is under a handshake, and what holds while it is. */
  predicate Guarded(s: Ftp, shaken: bool) {
    s.xfer.dataChannel.Some? ==>
      && s.ctl.q != []
      && (s.ctl.state == Data ==> !shaken)
      && (s.xfer.dataChannel.value.handshaking
          <==> s.ctl.state != Data && s.dcProt == Protected && !shaken)
      && (s.xfer.dataChannel.value.handshaking && s.ctl.q[0].verb == STOR ==>
            s.xfer.fileDevice.Some? && s.xfer.fileDevice.value.pending == 0)
  }

  /** The preliminary reply to a transfer whose data channel is open, whatever its verb. */
  lemma PreliminaryGuards(s: Ftp, msg: seq<byte>)
    requires Sound(s) && s.ctl.inProgress && s.ctl.state == Data && s.xfer.dataChannel.Some? && Code(msg) == '1'
    requires !s.xfer.dataChannel.value.handshaking && !OnReply(s, msg).fault
    ensures var r := OnReply(s, msg);
            && r.xfer.dataChannel.Some? && (r.xfer.dataChannel.value.handshaking <==> s.dcProt == Protected)
            && r.ctl == To(s, Mark).ctl && r.dcProt == s.dcProt
            && (s.dcProt == Protected && s.ctl.q[0].verb == STOR ==>
                  r.xfer.fileDevice.Some? && r.xfer.fileDevice.value.pending == 0)
  {
    PreliminaryReply(s, msg);
    assert CmdOk(s.ctl.q[0]);
  }

  /** PASV accepted: the channel connects to the address in the reply. */
  lemma PasvConnects(s: Ftp, text: seq<byte>, ns: seq<nat>, rest: seq<byte>)
    requires Sound(s) && s.ctl.inProgress && s.ctl.state == Pasv
    requires OPEN_PAREN !in text && |ns| == 6 && (forall i :: 0 <= i < 6 ==> ns[i] < 256)
    requires rest != [] ==> !IsDigit(rest[0])
    requires Code(text) == '2' && (ns[4] != 0 || ns[5] != 0)
    ensures var r := OnReply(s, text + (PrintAll(ns, OPEN_PAREN) + rest));
            && !r.fault && r.ctl == Control(Data, s.ctl.q[1..], true)
            && r.xfer == s.xfer.(dataChannel := Some(Channel(Address(ns[..4], 256 * ns[4] + ns[5]), [], false, false)))
  {
    var msg := text + (PrintAll(ns, OPEN_PAREN) + rest);
    AddressRoundTrip(text, ns, rest);
    assert text != [] && msg[0] == text[0];
    PasvAccepted(s, msg);
  }

  // -------- Steps --------

  lemma PasvGuarded(s: Ftp, msg: seq<byte>)
    requires Sound(s) && s.ctl.inProgress && s.ctl.state == Pasv && Code(msg) == '2' && !OnReply(s, msg).fault
    ensures OnReply(s, msg).xfer.dataChannel.Some? && !OnReply(s, msg).xfer.dataChannel.value.handshaking
    ensures OnReply(s, msg).ctl.state == Data && OnReply(s, msg).ctl.q != []
  {
    AddressOrFault(s, msg);
    PasvAccepted(s, msg);
  }

  /** A reply to a transfer in flight. */
  lemma TransferGuarded(s: Ftp, shaken: bool, msg: seq<byte>)
    requires Sound(s) && Guarded(s, shaken) && s.xfer.dataChannel.Some? && !OnReply(s, msg).fault
    ensures Guarded(OnReply(s, msg), shaken)
  {
    if Rule(s.ctl.state, Code(msg)).None? {
      IgnoredReply(s, msg);
    } else if Code(msg) == '1' {
      PreliminaryGuards(s, msg);
    } else if Code(msg) == '2' {
      CompletionReply(s, msg);
    } else {
      BreakOffReply(s, msg);
    }
  }

  /** Without a data channel a reply opens one only if it accepts PASV. */
  lemma OtherReplyGuarded(s: Ftp, msg: seq<byte>)
    requires Sound(s) && s.xfer.dataChannel.None? && !OnReply(s, msg).fault
    ensures Guarded(OnReply(s, msg), false)
  {
    if Rule(s.ctl.state, Code(msg)).None? {
      IgnoredReply(s, msg);
    } else if s.ctl.inProgress && s.ctl.state == Pasv && Code(msg) == '2' {
      PasvGuarded(s, msg);
    } else {
      StaysClosed(s, msg);
    }
  }

  lemma StaysClosed(s: Ftp, msg: seq<byte>)
    requires Sound(s) && s.xfer.dataChannel.None? && Rule(s.ctl.state, Code(msg)).Some?
    requires !(s.ctl.inProgress && s.ctl.state == Pasv && Code(msg) == '2')
    ensures OnReply(s, msg).xfer.dataChannel.None?
  {
    if !InFlight(s) {
      if s.ctl.state != Data {
        SoundLogin(s, msg);
      }
    } else if s.ctl.state == Gen {
      GenReply(s, msg);
    } else if s.ctl.state == Pasv {
      PasvSkipped(s, msg);
    } else if Code(msg) == '1' {
      PreliminaryReply(s, msg);
      PreliminaryFrame(To(s, Mark));
    } else if Code(msg) == '2' {
      CompletionReply(s, msg);
    } else {
      BreakOffReply(s, msg);
    }
  }

  lemma CallGuarded(s: Ftp, shaken: bool, call: Call)
    requires Sound(s) && Guarded(s, shaken) && ValidCall(call)
    ensures Guarded(OnCall(s, call), shaken)
  {
    SoundCall(s, call);
  }

  lemma DeviceGuarded(s: Ftp, shaken: bool, e: Event)
    requires Sound(s) && Guarded(s, shaken) && Possible(s, e) && !Step(s, e).fault
    requires e.DataChunk? || e.FileChunk? || e.FileEnd? || e.DataHandshake?
    ensures Guarded(Step(s, e), e.DataHandshake? || (shaken && s.xfer.dataChannel.Some?))
  {
    DeviceFrame(s, e);
  }

  lemma StepGuarded(s: Ftp, shaken: bool, e: Event)
    requires Sound(s) && Guarded(s, shaken) && Possible(s, e) && !Step(s, e).fault
    ensures Guarded(Step(s, e), e.DataHandshake? || (shaken && s.xfer.dataChannel.Some?))
  {
    match e
    case Reply(msg) =>
      if s.xfer.dataChannel.Some? {
        TransferGuarded(s, shaken, msg);
      } else {
        OtherReplyGuarded(s, msg);
      }
    case Api(call) => CallGuarded(s, shaken, call);
    case DataClosed => assert Step(s, e).xfer.dataChannel.None?;
    case Connect =>
    case ControlHandshake =>
    case _ => DeviceGuarded(s, shaken, e);
  }

  // -------- Runs --------

  /**
   At every moment of every run that has not faulted, with the data channel open: it is under a handshake if and only if
   the preliminary reply has come, the level in force is Protected, and the handshake has not ended since the channel
   was opened. While it is, an upload's file is open and no read of it is pending.
   */
  lemma {:induction false} HandshakingIff(config: Config, disk: map<string, seq<byte>>, es: seq<Event>)
    requires LiveRun(Init(config, disk), es)
    ensures var s := Run(Init(config, disk), es);
            Sound(s) && Guarded(s, Shaken(Init(config, disk), es))
    decreases |es|
  {
    if es != [] {
      var before, e := es[..|es| - 1], es[|es| - 1];
      LiveBefore(Init(config, disk), es);
      HandshakingIff(config, disk, before);
      StepSound(Run(Init(config, disk), before), e);
      StepGuarded(Run(Init(config, disk), before), Shaken(Init(config, disk), before), e);
    }
  }

  // -------- Whose level it is --------

  function CountTransfers(orders: seq<Order>): nat {
    if orders == [] then 0 else (if IsTransfer(orders[0].verb) then 1 else 0) + CountTransfers(orders[1..])
  }

  lemma {:induction false} CountConcat(a: seq<Order>, b: seq<Order>)
    ensures CountTransfers(a + b) == CountTransfers(a) + CountTransfers(b)
  {
    if a == [] {
      assert a + b == b;
    } else {
      assert (a + b)[1..] == a[1..] + b;
      CountConcat(a[1..], b);
    }
  }

  lemma {:induction false} TransfersAreOwn(q: seq<Cmd>)
    ensures CountTransfers(Own(q)) == Transfers(q)
  {
    if q != [] {
      TransfersAreOwn(q[1..]);
      if IsOwn(q[0]) {
        assert Own(q)[1..] == Own(q[1..]);
      } else {
        assert Own(q) == Own(q[1..]);
      }
    }
  }

  lemma CountOne(o: Order)
    ensures CountTransfers([o]) == if IsTransfer(o.verb) then 1 else 0
  {
    assert [o][1..] == [];
  }

  lemma {:induction false} AskedCounts(calls: seq<Call>)
    requires ValidCalls(calls)
    ensures |Asked(calls)| == CountTransfers(OrdersOf(calls))
  {
    if calls != [] {
      var n := |calls| - 1;
      AskedCounts(calls[..n]);
      OrdersLast(calls);
      CountConcat(OrdersOf(calls[..n]), [OrderOf(calls[n])]);
      CountOne(OrderOf(calls[n]));
      assert ValidCall(calls[n]);
    }
  }

  lemma {:induction false} AskedSplit(calls: seq<Call>, m: nat)
    requires m <= |calls|
    ensures Asked(calls) == Asked(calls[..m]) + Asked(calls[m..])
    decreases |calls|
  {
    var n := |calls| - 1;
    if m == |calls| {
      assert calls[..m] == calls;
    } else {
      AskedSplit(calls[..n], m);
      assert calls[..n][..m] == calls[..m] && calls[..n][m..] == calls[m..][..n - m];
      Regroup(Asked(calls[..m]), Asked(calls[m..][..n - m]), if calls[n].Simple? then [] else [calls[n].level]);
    }
  }

  lemma {:induction false} AskedFirst(calls: seq<Call>)
    requires calls != [] && !calls[0].Simple?
    ensures Asked(calls) != [] && Asked(calls)[0] == calls[0].level
    decreases |calls|
  {
    if |calls| > 1 {
      AskedFirst(calls[..|calls| - 1]);
    } else {
      assert Asked(calls[..0]) == [];
    }
  }

  lemma AskedByRest(calls: seq<Call>, q: seq<Cmd>)
    requires OrdersOf(calls) == Own(q) && ValidCalls(calls) && calls != [] && !calls[0].Simple?
    ensures |Asked(calls)| == Transfers(q) > 0 && Asked(calls)[0] == calls[0].level
  {
    AskedCounts(calls);
    TransfersAreOwn(q);
    AskedFirst(calls);
  }

  lemma RestOfCalls(calls: seq<Call>, before: seq<Order>, rest: seq<Order>)
    requires OrdersOf(calls) == before + rest && ValidCalls(calls)
    ensures |calls| == |before| + |rest| && OrdersOf(calls[|before|..]) == rest && ValidCalls(calls[|before|..])
  {
    assert |before + rest| == |calls|;
    assert OrdersOf(calls[|before|..]) == OrdersOf(calls)[|before|..] == rest;
  }

  /** The n-th level from the last, with n transfers queued, is that of the call the front transfer belongs to. */
  lemma {:induction false} AskedByFront(calls: seq<Call>, q: seq<Cmd>, before: seq<Order>)
    requires q != [] && IsTransfer(q[0].verb) && OrdersOf(calls) == before + Own(q) && ValidCalls(calls)
    ensures var asked, n := Asked(calls), Transfers(q);
            && 0 < n <= |asked| && 0 < |Own(q)| <= |calls|
            && !calls[|calls| - |Own(q)|].Simple? && asked[|asked| - n] == calls[|calls| - |Own(q)|].level
  {
    FrontIsItsCalls(calls, q, before);
    RestOfCalls(calls, before, Own(q));
    AskedByRest(calls[|before|..], q);
    AskedSplit(calls, |before|);
    SuffixFirst(Asked(calls[..|before|]), Asked(calls[|before|..]));
  }

  lemma SuffixFirst(a: seq<DCProt>, b: seq<DCProt>)
    requires b != []
    ensures (a + b)[|a + b| - |b|] == b[0]
  {
  }

  /** The level in force is the one that the call of the transfer in flight asked for. */
  predicate LevelIsOwn(s: Ftp) {
    && s.ctl.q != [] && 0 < |Own(s.ctl.q)| <= |s.log.calls|
    && AsOrder(s.ctl.q[0]) == OrderOf(CallOfFront(s))
    && !CallOfFront(s).Simple? && s.dcProt == CallOfFront(s).level
  }

  /** With n transfers queued, it is the n-th level from the last of those asked for. */
  predicate LevelIsNth(s: Ftp) {
    var asked, n := Asked(s.log.calls), Transfers(s.ctl.q);
    0 < n <= |asked| && s.dcProt == asked[|asked| - n]
  }

  lemma FrontHasOwnLevel(s: Ftp, before: seq<Order>)
    requires OrdersOf(s.log.calls) == before + Own(s.ctl.q) && ValidCalls(s.log.calls)
    requires s.ctl.q != [] && IsTransfer(s.ctl.q[0].verb) && LevelIsNth(s)
    ensures LevelIsOwn(s)
  {
    FrontIsItsCalls(s.log.calls, s.ctl.q, before);
    AskedByFront(s.log.calls, s.ctl.q, before);
  }

  lemma NthLevelInForce(config: Config, disk: map<string, seq<byte>>, es: seq<Event>)
    requires SecureControl(config.tls) && LiveRun(Init(config, disk), es) && HarmlessRun(Init(config, disk), es)
    ensures var s := Run(Init(config, disk), es);
            InTransfer(s) ==> LevelIsNth(s)
  {
    ProtectionFollowsRequest(config, disk, es);
  }

  lemma OwnLevelInForce(config: Config, disk: map<string, seq<byte>>, es: seq<Event>)
    requires SecureControl(config.tls) && LiveRun(Init(config, disk), es) && HarmlessRun(Init(config, disk), es)
    ensures var s := Run(Init(config, disk), es);
            InTransfer(s) ==> LevelIsOwn(s)
  {
    var s := Run(Init(config, disk), es);
    NthLevelInForce(config, disk, es);
    var before := QueueInCalls(config, disk, es);
    if InTransfer(s) {
      FrontHasOwnLevel(s, before);
    }
  }

  /**
   On a TLS control channel, over every run that has not faulted and in which no PROT that would change the level was
   refused: once the preliminary reply has come the channel of the transfer in flight is under a handshake, until that
   ends, if and only if the transfer's own call asked for Protected.
   */
  lemma HandshakesAsAsked(config: Config, disk: map<string, seq<byte>>, es: seq<Event>)
    requires SecureControl(config.tls) && LiveRun(Init(config, disk), es) && HarmlessRun(Init(config, disk), es)
    ensures var s := Run(Init(config, disk), es);
            s.xfer.dataChannel.Some? && s.ctl.state != Data && !Shaken(Init(config, disk), es) ==>
              LevelIsOwn(s) && (s.xfer.dataChannel.value.handshaking <==> CallOfFront(s).level == Protected)
  {
    HandshakingIff(config, disk, es);
    OwnLevelInForce(config, disk, es);
  }

  /** On a plain control channel no data channel is ever under a handshake, whatever the calls asked for. */
  lemma PlainNeverHandshakes(config: Config, disk: map<string, seq<byte>>, es: seq<Event>)
    requires !SecureControl(config.tls) && LiveRun(Init(config, disk), es)
    ensures var s := Run(Init(config, disk), es);
            s.xfer.dataChannel.Some? ==> !s.xfer.dataChannel.value.handshaking
  {
    HandshakingIff(config, disk, es);
    PlainChannelStaysClear(config, disk, es);
  }
}
