/**
 How a transfer ends, from the moment its command is sent: at once when the server refuses it or breaks it off, and
 otherwise when both the completion reply and the close of the data channel have been seen, in either order; exactly
 once.
 */
module FtpJoin {
  import opened Wrappers
  import opened Bytes
  import opened FtpModel
  import opened FtpInvariant

  /** How far the server's replies to a transfer have come (section 5.4 of RFC 959). */
  datatype Stage = Asked | Begun | Complete | Broken

  function NextStage(stage: Stage, e: Event): Stage {
    if !e.Reply? then stage
    else
      match stage
      case Asked => if Code(e.msg) == '1' then Begun else if Code(e.msg) in {'4', '5'} then Broken else Asked
      case Begun => if Code(e.msg) == '2' then Complete else if Code(e.msg) == '4' then Broken else Begun
      case _ => stage
  }

  function StageAfter(stage: Stage, es: seq<Event>): Stage {
    if es == [] then stage else NextStage(StageAfter(stage, es[..|es| - 1]), es[|es| - 1])
  }

  predicate Closed(es: seq<Event>) {
    es != [] && (es[|es| - 1].DataClosed? || Closed(es[..|es| - 1]))
  }

  predicate Over(stage: Stage, closed: bool) {
    stage == Broken || (stage == Complete && closed)
  }

  function StageIn(state: PState): Stage {
    match state
    case Data => Asked
    case Mark => Begun
    case _ => Complete
  }

  /** The conversation about the transfer that is in flight in `s` has ended with `es`. */
  predicate OverAfter(s: Ftp, es: seq<Event>) {
    Over(StageAfter(StageIn(s.ctl.state), es), s.xfer.dataChannel.None? || Closed(es))
  }

  /** It has ended with the last event of `es`. */
  predicate JustOver(s: Ftp, es: seq<Event>) {
    es != [] && OverAfter(s, es) && !OverAfter(s, es[..|es| - 1])
  }

  lemma StageOne(stage: Stage, es: seq<Event>, e: Event)
    ensures StageAfter(stage, es + [e]) == NextStage(StageAfter(stage, es), e)
    ensures Closed(es + [e]) <==> Closed(es) || e.DataClosed?
  {
    assert (es + [e])[..|es|] == es;
  }

  lemma OverStays(s: Ftp, es: seq<Event>)
    requires es != [] && OverAfter(s, es[..|es| - 1])
    ensures OverAfter(s, es)
  {
  }

  /** `front` is being transferred, nothing has gone or been sent since `log`, and the server has come to `stage`. */
  predicate Phase(s: Ftp, log: Log, front: Cmd, stage: Stage, closed: bool) {
    && s.ctl.inProgress && s.ctl.state in {Data, Mark, Final} && stage != Broken && StageIn(s.ctl.state) == stage
    && (s.xfer.dataChannel.Some? <==> !closed)
    && s.ctl.q != [] && s.ctl.q[0] == front
    && s.log.gone == log.gone && s.log.sent == log.sent
  }

  /** `front` has been retired, the data channel is closed, and the next transfer has yet to begin. */
  predicate Departed(s: Ftp, log: Log, front: Cmd) {
    s.log.gone == log.gone + [Retired(front)] && s.xfer.dataChannel.None? && !InTransfer(s)
  }

  /** The local file is closed as well. */
  predicate Ended(s: Ftp, log: Log, front: Cmd) {
    Departed(s, log, front) && s.xfer.fileDevice.None?
  }

  lemma PopsFront(s: Ftp)
    requires s.ctl.q != [] && s.xfer.dataChannel.None? && s.ctl.state == Final && Paired(s.ctl.q[1..])
    ensures Departed(SkipCommand(s, 1), s.log, s.ctl.q[0]) && SkipCommand(s, 1).xfer == s.xfer
  {
    assert Departures(s.ctl.q[..1]) == [Retired(s.ctl.q[0])];
  }

  /** A refusal, or a reply of class 4 before the completion reply, ends the transfer at once, data channel or not. */
  lemma BrokenOff(s: Ftp, msg: seq<byte>)
    requires Sound(s) && s.ctl.inProgress && s.ctl.state in {Data, Mark}
    requires Code(msg) == '4' || (Code(msg) == '5' && s.ctl.state == Data)
    ensures Ended(OnReply(s, msg), s.log, s.ctl.q[0])
  {
    BreakOffReply(s, msg);
    PopsFront(ResetDevices(To(s, Final)));
  }

  lemma BeginFrame(s: Ftp, msg: seq<byte>)
    requires Sound(s) && s.ctl.inProgress && s.ctl.state == Data && Code(msg) == '1'
    ensures var r := OnReply(s, msg);
            && r.ctl == To(s, Mark).ctl && r.log == s.log && r.talk == s.talk
            && r.xfer.dataChannel.Some? == s.xfer.dataChannel.Some?
  {
    PreliminaryReply(s, msg);
    PreliminaryFrame(To(s, Mark));
  }

  lemma CompletionPhase(s: Ftp, log: Log, front: Cmd, closed: bool, msg: seq<byte>)
    requires Sound(s) && Phase(s, log, front, Begun, closed) && Code(msg) == '2'
    ensures if closed then Departed(OnReply(s, msg), log, front)
            else Phase(OnReply(s, msg), log, front, Complete, false)
  {
    CompletionReply(s, msg);
    if closed {
      PopsFront(To(s, Final));
    }
  }

  lemma ReplyPhase(s: Ftp, log: Log, front: Cmd, stage: Stage, closed: bool, msg: seq<byte>)
    requires Sound(s) && Phase(s, log, front, stage, closed) && !Over(stage, closed)
    ensures var stage', r := NextStage(stage, Reply(msg)), OnReply(s, msg);
            && (stage' == Broken ==> Ended(r, log, front))
            && if Over(stage', closed) then Departed(r, log, front) else Phase(r, log, front, stage', closed)
  {
    if NextStage(stage, Reply(msg)) == stage {
      IgnoredReply(s, msg);
    } else if stage == Asked && Code(msg) == '1' {
      BeginFrame(s, msg);
    } else if Code(msg) == '2' {
      CompletionPhase(s, log, front, closed, msg);
    } else {
      BrokenOff(s, msg);
    }
  }

  lemma ClosePhase(s: Ftp, log: Log, front: Cmd, stage: Stage)
    requires Sound(s) && Phase(s, log, front, stage, false)
    ensures var s' := OnDataChannelDisconnect(s);
            if stage == Complete then Departed(s', log, front) else Phase(s', log, front, stage, true)
  {
    if stage == Complete {
      PopsFront(ResetDevices(NotifyEnd(s, front)));
    }
  }

  lemma OtherPhase(s: Ftp, log: Log, front: Cmd, stage: Stage, closed: bool, e: Event)
    requires Sound(s) && Phase(s, log, front, stage, closed) && Possible(s, e)
    requires !e.Reply? && !e.DataClosed?
    ensures Phase(Step(s, e), log, front, stage, closed)
  {
    if e.Api? {
      SoundCall(s, e.call);
      assert Append(s, e.call).ctl.state == s.ctl.state;
    } else if e.DataChunk? || e.FileChunk? || e.FileEnd? || e.DataHandshake? {
      DeviceFrame(s, e);
    }
  }

  lemma StepPhase(s: Ftp, log: Log, front: Cmd, stage: Stage, closed: bool, e: Event)
    requires Sound(s) && Phase(s, log, front, stage, closed) && !Over(stage, closed) && Possible(s, e)
    ensures var stage', closed', r := NextStage(stage, e), closed || e.DataClosed?, Step(s, e);
            && (stage' == Broken ==> Ended(r, log, front))
            && if Over(stage', closed') then Departed(r, log, front) else Phase(r, log, front, stage', closed')
  {
    match e
    case Reply(msg) => ReplyPhase(s, log, front, stage, closed, msg);
    case DataClosed => ClosePhase(s, log, front, stage);
    case _ => OtherPhase(s, log, front, stage, closed, e);
  }

  /**
   Until the server has refused or broken off the transfer, or both the completion reply and the close have come, the
   transfer is not retired, whatever else happens: other replies (a late refusal of class 5 among them), API calls,
   chunks.
   */
  lemma {:induction false} NotBeforeBoth(s: Ftp, es: seq<Event>)
    requires Sound(s) && InTransfer(s) && LiveRun(s, es) && !OverAfter(s, es)
    ensures Phase(Run(s, es), s.log, s.ctl.q[0], StageAfter(StageIn(s.ctl.state), es),
                  s.xfer.dataChannel.None? || Closed(es))
    decreases |es|
  {
    if es != [] {
      var before := es[..|es| - 1];
      LiveBefore(s, es);
      NotBeforeBoth(s, before);
      RunSound(s, before);
      StepPhase(Run(s, before), s.log, s.ctl.q[0], StageAfter(StageIn(s.ctl.state), before),
                s.xfer.dataChannel.None? || Closed(before), es[|es| - 1]);
    }
  }

  /**
   The event with which that has come about, the last of `es`, retires the transfer and leaves the data channel closed;
   and the local file too if the transfer was refused or broken off.
   */
  lemma ExactlyAtBoth(s: Ftp, es: seq<Event>)
    requires Sound(s) && InTransfer(s) && LiveRun(s, es) && JustOver(s, es)
    ensures Departed(Run(s, es), s.log, s.ctl.q[0])
    ensures StageAfter(StageIn(s.ctl.state), es) == Broken ==> Ended(Run(s, es), s.log, s.ctl.q[0])
  {
    var before, e := es[..|es| - 1], es[|es| - 1];
    LiveBefore(s, es);
    NotBeforeBoth(s, before);
    RunSound(s, before);
    StepPhase(Run(s, before), s.log, s.ctl.q[0], StageAfter(StageIn(s.ctl.state), before),
              s.xfer.dataChannel.None? || Closed(before), e);
  }

  /** On an orderly run it leaves no device open, however the transfer ends. */
  lemma EndsClean(s: Ftp, es: seq<Event>)
    requires Inv(s) && InTransfer(s) && OrderlyRun(s, es) && JustOver(s, es)
    ensures Ended(Run(s, es), s.log, s.ctl.q[0])
  {
    OrderlyIsLive(s, es);
    RunKeeps(s, es);
    ExactlyAtBoth(s, es);
  }

  /** Replies of class 2 and 4 are missing. */
  predicate NeverAnswered(es: seq<Event>) {
    forall e <- es :: e.Reply? ==> Code(e.msg) !in {'2', '4'}
  }

  lemma {:induction false} StaysBegun(es: seq<Event>)
    requires NeverAnswered(es)
    ensures StageAfter(Begun, es) == Begun
  {
    if es != [] {
      assert forall e :: e in es[..|es| - 1] ==> e in es;
      assert es[|es| - 1] in es;
      StaysBegun(es[..|es| - 1]);
    }
  }

  /**
   A transfer that has begun and gets no reply of class 2 or 4 is never retired, and nothing else is ever sent: the
   table has no row for the refusals 551 and 552 that section 5.4 allows there.
   */
  lemma {:induction false} LateRefusalStalls(s: Ftp, es: seq<Event>)
    requires Sound(s) && s.ctl.inProgress && s.ctl.state == Mark && LiveRun(s, es) && NeverAnswered(es)
    ensures var r := Run(s, es);
            r.ctl.inProgress && r.ctl.state == Mark && r.log.sent == s.log.sent && r.log.gone == s.log.gone
  {
    StaysBegun(es);
    NotBeforeBoth(s, es);
  }

  /** Both devices are closed whenever PASV is in flight. */
  lemma ClosedAtPasv(config: Config, disk: map<string, seq<byte>>, es: seq<Event>)
    requires OrderlyRun(Init(config, disk), es)
    ensures var s := Run(Init(config, disk), es);
            s.ctl.inProgress && s.ctl.state == Pasv ==> s.xfer.dataChannel.None? && s.xfer.fileDevice.None?
  {
    RunKeeps(Init(config, disk), es);
  }
}
