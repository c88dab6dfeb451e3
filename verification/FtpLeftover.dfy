/**
 A file device that outlives its transfer: when one is left behind, how long it stays, and what it does to the
 transfers that follow. These are the states beyond the invariant; only the control part of it is presumed.
 */
module FtpLeftover {
  import opened Wrappers
  import opened Bytes
  import opened FtpModel
  import opened FtpInvariant
  import opened FtpJoin
  import opened FtpTransfer

  // -------- How it comes about --------

  /** The preliminary reply without a data channel, on a clear channel. */
  lemma BegunWithoutChannel(s: Ftp, one: seq<byte>)
    requires Sound(s) && s.ctl.inProgress && s.ctl.state == Data && s.xfer.dataChannel.None? && s.xfer.fileDevice.None?
    requires s.dcProt == Clear && Code(one) == '1' && (s.ctl.q[0].verb == STOR ==> s.ctl.q[0].local in s.xfer.disk)
    ensures var r := OnReply(s, one);
            && !r.fault && r.ctl == To(s, Mark).ctl && r.log == s.log && r.xfer.dataChannel.None?
            && (r.xfer.fileDevice.Some? <==> s.ctl.q[0].local != "")
            && (s.ctl.q[0].local != "" && s.ctl.q[0].verb != STOR ==>
                  r.xfer.fileDevice == Some(FileDevice(s.ctl.q[0].local, 0)) && r.xfer.offset == 0)
  {
    assert CmdOk(s.ctl.q[0]);
    PreliminaryReply(s, one);
  }

  lemma CompletedWithoutChannel(s: Ftp, two: seq<byte>)
    requires Sound(s) && s.ctl.inProgress && s.ctl.state == Mark && s.xfer.dataChannel.None? && Code(two) == '2'
    ensures var r := OnReply(s, two);
            && Sound(r) && r.log.gone == s.log.gone + [Retired(s.ctl.q[0])] && r.xfer == s.xfer && !InTransfer(r)
  {
    CompletionReply(s, two);
    SoundSkip(To(s, Final), 1);
    PopsFront(To(s, Final));
  }

  /**
   A data channel that closes before the preliminary reply, on a clear channel and for anything but the upload of a
   missing file: when the completion reply has come the transfer is retired, and a file device is left behind, which
   breaks the invariant, if and only if there is a local file; after a download at rest, at its beginning. (On a
   protected channel the preliminary reply faults; a transfer that is refused is unharmed.)
   */
  lemma EarlyCloseLeavesFileIff(s: Ftp, one: seq<byte>, two: seq<byte>)
    requires Inv(s) && s.ctl.inProgress && s.ctl.state == Data && s.xfer.dataChannel.Some?
    requires s.dcProt == Clear && Code(one) == '1' && Code(two) == '2'
    requires s.ctl.q[0].verb == STOR ==> s.ctl.q[0].local in s.xfer.disk
    ensures var r := Step(Step(Step(s, DataClosed), Reply(one)), Reply(two));
            && !r.fault && r.log.gone == s.log.gone + [Retired(s.ctl.q[0])] && r.xfer.dataChannel.None?
            && (r.xfer.fileDevice.Some? <==> s.ctl.q[0].local != "") && (Inv(r) <==> s.ctl.q[0].local == "")
            && (s.ctl.q[0].local != "" && s.ctl.q[0].verb != STOR ==>
                  AtRest(r) && r.xfer.fileDevice.value.path == s.ctl.q[0].local && r.xfer.offset == 0)
  {
    var s1 := Step(s, DataClosed);
    StepSound(s, DataClosed);
    assert s1.ctl == s.ctl && s1.dcProt == s.dcProt && s1.log == s.log;
    assert s1.xfer == s.xfer.(dataChannel := None, fileDevice := None);
    BegunWithoutChannel(s1, one);
    var s2 := Step(s1, Reply(one));
    StepSound(s1, Reply(one));
    CompletedWithoutChannel(s2, two);
  }

  // -------- How long it stays --------

  /** The event closes the local file, whichever it is: the close of a data channel, or a refusal. */
  predicate Clears(s: Ftp, e: Event) {
    e.DataClosed? || (InTransfer(s) && NextStage(StageIn(s.ctl.state), e) == Broken && StageIn(s.ctl.state) != Broken)
  }

  lemma ReplyClearsIff(s: Ftp, msg: seq<byte>)
    requires Sound(s) && s.xfer.fileDevice.Some? && !OnReply(s, msg).fault
    ensures var r := OnReply(s, msg);
            if Clears(s, Reply(msg)) then r.xfer.fileDevice.None? else r.xfer.fileDevice == s.xfer.fileDevice
  {
    if Rule(s.ctl.state, Code(msg)).None? {
      IgnoredReply(s, msg);
    } else if !InFlight(s) {
      if s.ctl.state == Data {
        UnaskedBreaks(s, msg);
      } else {
        SoundLogin(s, msg);
      }
    } else if s.ctl.state == Gen {
      GenReply(s, msg);
    } else if s.ctl.state == Pasv {
      if Code(msg) == '2' {
        PasvAccepted(s, msg);
      } else {
        PasvSkipped(s, msg);
      }
    } else if Code(msg) == '1' {
      BegunOverLeftover(s, msg);
    } else if Code(msg) == '2' {
      CompletionReply(s, msg);
    } else {
      BrokenOff(s, msg);
    }
  }

  /** With a leftover device a transfer that begins has no local file of its own, and opens none. */
  lemma BegunOverLeftover(s: Ftp, msg: seq<byte>)
    requires Sound(s) && s.ctl.inProgress && s.ctl.state == Data && Code(msg) == '1' && s.xfer.fileDevice.Some?
    requires !OnReply(s, msg).fault
    ensures var r := OnReply(s, msg);
            && s.ctl.q[0].local == "" && s.ctl.q[0].verb != STOR && r.xfer.continueTransfer
            && r.ctl == To(s, Mark).ctl && r.log == s.log && r.talk == s.talk
            && r.xfer.fileDevice == s.xfer.fileDevice && r.xfer.disk == s.xfer.disk && r.xfer.offset == s.xfer.offset
  {
    assert CmdOk(s.ctl.q[0]);
    PreliminaryReply(s, msg);
  }

  lemma OtherKeepsFile(s: Ftp, e: Event)
    requires Sound(s) && Possible(s, e) && !Step(s, e).fault && s.xfer.fileDevice.Some? && !e.Reply? && !e.DataClosed?
    ensures Step(s, e).xfer.fileDevice.Some? && Step(s, e).xfer.fileDevice.value.path == s.xfer.fileDevice.value.path
  {
    if e.Api? {
      SoundCall(s, e.call);
    }
  }

  /** A local file that is open stays open, and the same, if and only if the event is not a close or a refusal. */
  lemma StaysOpenIff(s: Ftp, e: Event)
    requires Sound(s) && Possible(s, e) && !Step(s, e).fault && s.xfer.fileDevice.Some?
    ensures Step(s, e).xfer.fileDevice.Some? <==> !Clears(s, e)
    ensures !Clears(s, e) ==> Step(s, e).xfer.fileDevice.value.path == s.xfer.fileDevice.value.path
  {
    match e
    case Reply(msg) => ReplyClearsIff(s, msg);
    case DataClosed =>
      var s1 := ResetDevices(NotifyEnd(s, s.ctl.q[0]));
      if s.ctl.state == Final {
        PopsFront(s1);
      }
    case _ => OtherKeepsFile(s, e);
  }

  /** No event of the run closes the local file. */
  predicate NeverCleared(s: Ftp, es: seq<Event>)
    decreases |es|
  {
    es != [] ==>
      NeverCleared(s, es[..|es| - 1]) && !Clears(Run(s, es[..|es| - 1]), es[|es| - 1])
  }

  lemma {:induction false} RunStaysOpen(s: Ftp, es: seq<Event>)
    requires Sound(s) && s.xfer.fileDevice.Some? && LiveRun(s, es) && NeverCleared(s, es)
    ensures Sound(Run(s, es)) && Run(s, es).xfer.fileDevice.Some?
    ensures Run(s, es).xfer.fileDevice.value.path == s.xfer.fileDevice.value.path
    decreases |es|
  {
    if es != [] {
      var before, e := es[..|es| - 1], es[|es| - 1];
      LiveBefore(s, es);
      RunStaysOpen(s, before);
      StepSound(Run(s, before), e);
      StaysOpenIff(Run(s, before), e);
    }
  }

  /**
   A leftover file that is at rest: no read of it is pending, none is about to start, and the offset is inside it. A
   transfer can only write to it.
   */
  predicate AtRest(s: Ftp) {
    && s.xfer.fileDevice.Some? && s.xfer.fileDevice.value.pending == 0
    && s.xfer.offset <= |Content(s.xfer, s.xfer.fileDevice.value.path)|
    && (s.xfer.dataChannel.Some? && s.xfer.dataChannel.value.handshaking ==> s.ctl.q != [] && s.ctl.q[0].verb != STOR)
  }

  lemma ReplyLeavesAtRest(s: Ftp, msg: seq<byte>)
    requires Sound(s) && AtRest(s) && !OnReply(s, msg).fault && !Clears(s, Reply(msg))
    ensures AtRest(OnReply(s, msg))
  {
    ReplyClearsIff(s, msg);
    if Rule(s.ctl.state, Code(msg)).None? {
      IgnoredReply(s, msg);
    } else if !InFlight(s) {
      SoundLogin(s, msg);
    } else if s.ctl.state == Gen {
      GenReply(s, msg);
    } else if s.ctl.state == Pasv {
      if Code(msg) == '2' {
        PasvAccepted(s, msg);
      } else {
        PasvSkipped(s, msg);
      }
    } else if Code(msg) == '1' {
      BegunOverLeftover(s, msg);
    } else if Code(msg) == '2' {
      CompletionReply(s, msg);
    }
  }

  /** Only what closes it ends that. */
  lemma StaysAtRest(s: Ftp, e: Event)
    requires Sound(s) && AtRest(s) && Possible(s, e) && !Step(s, e).fault && !Clears(s, e)
    ensures AtRest(Step(s, e))
  {
    match e
    case Reply(msg) => ReplyLeavesAtRest(s, msg);
    case Api(call) => SoundCall(s, call);
    case DataChunk(b, more) =>
      if !Refused(s, s.ctl.q[0]) {
        ChunkGoes(s, e);
      }
    case _ =>
  }

  lemma {:induction false} RunStaysAtRest(s: Ftp, es: seq<Event>)
    requires Sound(s) && AtRest(s) && LiveRun(s, es) && NeverCleared(s, es)
    ensures Sound(Run(s, es)) && AtRest(Run(s, es))
    ensures Run(s, es).xfer.fileDevice.value.path == s.xfer.fileDevice.value.path
    decreases |es|
  {
    RunStaysOpen(s, es);
    if es != [] {
      LiveBefore(s, es);
      RunStaysAtRest(s, es[..|es| - 1]);
      StaysAtRest(Run(s, es[..|es| - 1]), es[|es| - 1]);
    }
  }

  // -------- What it does to the transfers that follow --------

  /**
   Where a file device is left over, the preliminary reply faults if and only if the transfer has a local file of its
   own.
   */
  lemma LeftoverFaultsIff(s: Ftp, msg: seq<byte>)
    requires Sound(s) && s.ctl.inProgress && s.ctl.state == Data && s.xfer.dataChannel.Some? && s.xfer.fileDevice.Some?
    requires Code(msg) == '1'
    ensures OnReply(s, msg).fault <==> s.ctl.q[0].local != ""
  {
    assert CmdOk(s.ctl.q[0]);
    OpensOrFaults(s, msg);
  }

  /**
   Over any run that neither closes a data channel nor has a transfer refused: the first transfer with a local file
   that gets its preliminary reply faults, and no other does.
   */
  lemma NextLocalFileFaultsIff(s: Ftp, es: seq<Event>, msg: seq<byte>)
    requires Sound(s) && s.xfer.fileDevice.Some? && LiveRun(s, es) && NeverCleared(s, es) && Code(msg) == '1'
    requires var r := Run(s, es); InTransfer(r) && r.ctl.state == Data && r.xfer.dataChannel.Some? && r.ctl.q != []
    ensures Step(Run(s, es), Reply(msg)).fault <==> Run(s, es).ctl.q[0].local != ""
  {
    RunStaysOpen(s, es);
    LeftoverFaultsIff(Run(s, es), msg);
  }

  /** A transfer without a local file has written what it accepted into the leftover one, from offset `at` on. */
  predicate Spilling(s: Ftp, o: Origin, path: string, was: seq<byte>, at: nat, es: seq<Event>) {
    var got := Accepted(HasCallback(o), es);
    && Going(s, o, es) && o.front.verb != STOR && at <= |was| && Content(s.xfer, path) == WriteAt(was, at, got)
    && (s.xfer.dataChannel.Some? ==>
          && s.xfer.fileDevice == Some(FileDevice(path, 0)) && s.xfer.offset == at + |got|
          && (HasCallback(o) ==> s.xfer.continueTransfer == Willing(es)))
  }

  lemma WriteNothing(was: seq<byte>, at: nat)
    requires at <= |was|
    ensures WriteAt(was, at, []) == was
  {
  }

  lemma WriteMore(was: seq<byte>, at: nat, got: seq<byte>, b: seq<byte>)
    requires at <= |was|
    ensures WriteAt(WriteAt(was, at, got), at + |got|, b) == WriteAt(was, at, got + b)
  {
    var w := WriteAt(was, at, got);
    assert w[..at + |got|] == was[..at] + got;
    if at + |got| + |b| <= |was| {
      assert w[at + |got| + |b|..] == was[at + |got| + |b|..];
    }
  }

  /** Where an accepted chunk goes: into the local file that is open, at the offset. */
  lemma ChunkGoes(s: Ftp, e: Event)
    requires s.ctl.q != [] && !s.fault && e.DataChunk? && !Refused(s, s.ctl.q[0])
    requires s.xfer.dataChannel.Some? && s.xfer.fileDevice.Some?
    ensures var r, path := Step(s, e).xfer, s.xfer.fileDevice.value.path;
            && r.dataChannel == s.xfer.dataChannel && r.fileDevice == s.xfer.fileDevice
            && r.offset == s.xfer.offset + |e.data|
            && Content(r, path) == WriteAt(Content(s.xfer, path), s.xfer.offset, e.data)
            && r.continueTransfer == if s.ctl.q[0].tcbk.Some? then e.more else s.xfer.continueTransfer
  {
  }

  lemma ChunkSpills(s: Ftp, o: Origin, path: string, was: seq<byte>, at: nat, es: seq<Event>, e: Event)
    requires Sound(s) && Spilling(s, o, path, was, at, es) && e.DataChunk? && Possible(s, e) && !Refused(s, o.front)
    requires Going(Step(s, e), o, es + [e])
    ensures Spilling(Step(s, e), o, path, was, at, es + [e])
  {
    var got := Accepted(HasCallback(o), es);
    CountOne(HasCallback(o), es, e);
    WriteMore(was, at, got, e.data);
    ChunkGoes(s, e);
    assert Accepted(HasCallback(o), es + [e]) == got + e.data;
  }

  lemma RefusedSpills(s: Ftp, o: Origin, path: string, was: seq<byte>, at: nat, es: seq<Event>, e: Event)
    requires Sound(s) && Spilling(s, o, path, was, at, es) && e.DataChunk? && Possible(s, e) && Refused(s, o.front)
    requires Going(Step(s, e), o, es + [e])
    ensures Spilling(Step(s, e), o, path, was, at, es + [e])
  {
    CountOne(HasCallback(o), es, e);
    assert Step(s, e) == StopChannel(s);
    assert Accepted(HasCallback(o), es + [e]) == Accepted(HasCallback(o), es);
  }

  /** What an event that brings no chunk leaves alone. */
  lemma SpillLeaves(s: Ftp, e: Event)
    requires Sound(s) && InTransfer(s) && s.ctl.state != Data && s.ctl.q[0].verb != STOR && Possible(s, e)
    requires !e.DataChunk? && !e.FileChunk? && !e.FileEnd?
    ensures var r := Step(s, e);
            && r.xfer.disk == s.xfer.disk
            && (NextStage(StageIn(s.ctl.state), e) != Broken && r.xfer.dataChannel.Some? ==>
                  && s.xfer.dataChannel.Some? && r.xfer.fileDevice == s.xfer.fileDevice
                  && r.xfer.offset == s.xfer.offset && r.xfer.continueTransfer == s.xfer.continueTransfer)
  {
    match e
    case Reply(msg) => ReplyLeaves(s, msg);
    case Api(call) => SoundCall(s, call);
    case DataClosed =>
      if s.ctl.state == Final {
        PopsFront(ResetDevices(NotifyEnd(s, s.ctl.q[0])));
      }
    case _ =>
  }

  lemma OtherSpills(s: Ftp, o: Origin, path: string, was: seq<byte>, at: nat, es: seq<Event>, e: Event)
    requires Sound(s) && Spilling(s, o, path, was, at, es) && Possible(s, e) && !IsChunk(e) && !e.FileEnd?
    requires StillGoing(o, es + [e]) && Going(Step(s, e), o, es + [e])
    ensures Spilling(Step(s, e), o, path, was, at, es + [e])
  {
    StageOne(Begun, es, e);
    CountOne(HasCallback(o), es, e);
    SpillLeaves(s, e);
    assert Accepted(HasCallback(o), es + [e]) == Accepted(HasCallback(o), es);
  }

  lemma SpillGoes(s: Ftp, o: Origin, es: seq<Event>, e: Event)
    requires Sound(s) && Going(s, o, es) && StillGoing(o, es) && Possible(s, e) && !Step(s, e).fault
    requires StillGoing(o, es + [e])
    ensures Going(Step(s, e), o, es + [e])
  {
    StageOne(Begun, es, e);
    StepPhase(s, o.log, o.front, StageAfter(Begun, es), Closing(o, es), e);
  }

  lemma StepSpills(s: Ftp, o: Origin, path: string, was: seq<byte>, at: nat, es: seq<Event>, e: Event)
    requires Sound(s) && Spilling(s, o, path, was, at, es) && StillGoing(o, es) && Possible(s, e) && !Step(s, e).fault
    requires StillGoing(o, es + [e])
    ensures Spilling(Step(s, e), o, path, was, at, es + [e])
  {
    SpillGoes(s, o, es, e);
    if e.FileChunk? || e.FileEnd? {
      assert s.xfer.dataChannel.None?;
      FaultsIff(s, e);
    } else if !e.DataChunk? {
      OtherSpills(s, o, path, was, at, es, e);
    } else if Refused(s, o.front) {
      RefusedSpills(s, o, path, was, at, es, e);
    } else {
      ChunkSpills(s, o, path, was, at, es, e);
    }
  }

  lemma StartsSpill(s: Ftp, msg: seq<byte>)
    requires Sound(s) && s.ctl.inProgress && s.ctl.state == Data && s.xfer.dataChannel.Some? && Code(msg) == '1'
    requires s.ctl.q[0].local == "" && AtRest(s)
    ensures var r, path := OnReply(s, msg), s.xfer.fileDevice.value.path;
            Sound(r) && Spilling(r, OriginOf(s), path, Content(s.xfer, path), s.xfer.offset, [])
  {
    LeftoverFaultsIff(s, msg);
    SoundReply(s, msg);
    BeginFrame(s, msg);
    BegunOverLeftover(s, msg);
    WriteNothing(Content(s.xfer, s.xfer.fileDevice.value.path), s.xfer.offset);
  }

  /**
   A listing, or a download with a callback only, that begins where a file device is left over writes what it receives
   into that file, from the leftover offset on: at every moment from its preliminary reply on, as long as no command
   faults, the file holds its old content overwritten with exactly the accepted chunks.
   */
  lemma {:induction false} LeftoverIsOverwritten(s: Ftp, msg: seq<byte>, es: seq<Event>)
    requires Sound(s) && s.ctl.inProgress && s.ctl.state == Data && s.xfer.dataChannel.Some? && Code(msg) == '1'
    requires s.ctl.q[0].local == "" && AtRest(s)
    requires LiveRun(OnReply(s, msg), es) && StillGoing(OriginOf(s), es)
    ensures var r, path := Run(OnReply(s, msg), es), s.xfer.fileDevice.value.path;
            Sound(r) && Spilling(r, OriginOf(s), path, Content(s.xfer, path), s.xfer.offset, es)
    decreases |es|
  {
    if es == [] {
      StartsSpill(s, msg);
    } else {
      var before, e, path := es[..|es| - 1], es[|es| - 1], s.xfer.fileDevice.value.path;
      LiveBefore(OnReply(s, msg), es);
      GoingBefore(OriginOf(s), es);
      LeftoverIsOverwritten(s, msg, before);
      SplitLast(es);
      StepSound(Run(OnReply(s, msg), before), e);
      StepSpills(Run(OnReply(s, msg), before), OriginOf(s), path, Content(s.xfer, path), s.xfer.offset, before, e);
    }
  }
}
