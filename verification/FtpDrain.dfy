/**
 A weight on the queue: after the login no event but an API call raises it, and every event that advances the command
 in flight lowers it.
 */
module FtpDrain {
  import opened Wrappers
  import opened Bytes
  import opened FtpAddress
  import opened FtpModel
  import opened FtpInvariant
  import opened FtpJoin

  /**
   How many events a command needs at most: a transfer needs its preliminary reply, its completion and its close.
   */
  function Weight(v: Verb): nat {
    if IsTransfer(v) then 3 else 1
  }

  function QueueWeight(q: seq<Cmd>): nat {
    if q == [] then 0 else Weight(q[0].verb) + QueueWeight(q[1..])
  }

  /** What the transfer in progress has already seen. */
  function Seen(s: Ftp): nat {
    if !s.ctl.inProgress then 0
    else
      match s.ctl.state
      case Data => if s.xfer.dataChannel.Some? then 0 else 1
      case Mark => if s.xfer.dataChannel.Some? then 1 else 2
      case Final => 2
      case _ => 0
  }

  function Left(s: Ftp): int {
    QueueWeight(s.ctl.q) - Seen(s)
  }

  /** The login is over: a command is in flight, or none is queued. */
  predicate InSession(s: Ftp) {
    InFlight(s) || !s.ctl.inProgress
  }

  predicate Drained(s: Ftp) {
    s.ctl.q == [] && !s.ctl.inProgress
  }

  /**
   The event advances the command in flight: the transition table has a row for the reply, or the channel closes.
   */
  predicate Advances(s: Ftp, e: Event) {
    InFlight(s) && match e
      case Reply(msg) => Rule(s.ctl.state, Code(msg)).Some?
      case DataClosed => true
      case _ => false
  }

  /** Popping commands, when the next one is not a transfer. */
  lemma LeftAfterPop(s: Ftp, n: nat)
    requires 1 <= n <= |s.ctl.q| && n <= 2 && (|s.ctl.q| > n ==> !IsTransfer(s.ctl.q[n].verb))
    ensures var s' := SkipCommand(s, n);
            && s'.ctl.q == s.ctl.q[n..] && Seen(s') == 0 && InSession(s')
            && Left(s')
               == QueueWeight(s.ctl.q) - Weight(s.ctl.q[0].verb) - if n == 2 then Weight(s.ctl.q[1].verb) else 0
  {
    if n == 2 {
      assert s.ctl.q[1..][1..] == s.ctl.q[2..];
    }
  }

  lemma GenAdvances(s: Ftp, msg: seq<byte>)
    requires Sound(s) && s.ctl.inProgress && s.ctl.state == Gen && '1' <= Code(msg) <= '5'
    ensures Left(OnReply(s, msg)) < Left(s) && InSession(OnReply(s, msg))
  {
    GenReply(s, msg);
    assert Paired(s.ctl.q[1..]);
    LeftAfterPop(NoteAnswer(RunResponse(To(s, Ready), s.ctl.q[0], msg), msg), 1);
  }

  lemma PasvSkipAdvances(s: Ftp, msg: seq<byte>)
    requires Sound(s) && s.ctl.inProgress && s.ctl.state == Pasv && Code(msg) in {'1', '4', '5'}
    ensures Left(OnReply(s, msg)) < Left(s) && InSession(OnReply(s, msg))
  {
    PasvSkipped(s, msg);
    assert Paired(s.ctl.q[2..]);
    LeftAfterPop(To(s, if Code(msg) == '1' then Data else Ready), 2);
  }

  lemma PasvAcceptAdvances(s: Ftp, msg: seq<byte>)
    requires Sound(s) && s.ctl.inProgress && s.ctl.state == Pasv && Code(msg) == '2' && HasAddress(msg)
    ensures Left(OnReply(s, msg)) < Left(s) && InSession(OnReply(s, msg))
  {
    var s1, r := SkipCommand(To(s, Data), 1), OnReply(s, msg);
    PasvAccepted(s, msg);
    assert s1.ctl == Control(Data, s.ctl.q[1..], true);
    assert r.ctl == s1.ctl && r.xfer.dataChannel.Some?;
  }

  lemma PreliminaryAdvances(s: Ftp, msg: seq<byte>)
    requires Sound(s) && s.ctl.inProgress && s.ctl.state == Data && Code(msg) == '1'
    ensures Left(OnReply(s, msg)) < Left(s) && InSession(OnReply(s, msg))
  {
    BeginFrame(s, msg);
  }

  lemma BreakOffAdvances(s: Ftp, msg: seq<byte>)
    requires Sound(s) && s.ctl.inProgress && s.ctl.state in {Data, Mark}
    requires Code(msg) == '4' || (Code(msg) == '5' && s.ctl.state == Data)
    ensures Left(OnReply(s, msg)) < Left(s) && InSession(OnReply(s, msg))
  {
    BreakOffReply(s, msg);
    assert Paired(s.ctl.q[1..]);
    LeftAfterPop(ResetDevices(To(s, Final)), 1);
  }

  lemma CompletionAdvances(s: Ftp, msg: seq<byte>)
    requires Sound(s) && s.ctl.inProgress && s.ctl.state == Mark && Code(msg) == '2'
    ensures Left(OnReply(s, msg)) < Left(s) && InSession(OnReply(s, msg))
  {
    CompletionReply(s, msg);
    assert Paired(s.ctl.q[1..]);
    if s.xfer.dataChannel.None? {
      LeftAfterPop(To(s, Final), 1);
    }
  }

  lemma ReplyAdvances(s: Ftp, msg: seq<byte>)
    requires Sound(s) && !OnReply(s, msg).fault && Advances(s, Reply(msg))
    ensures Left(OnReply(s, msg)) < Left(s) && InSession(OnReply(s, msg))
  {
    if s.ctl.state == Gen {
      GenAdvances(s, msg);
    } else if s.ctl.state == Pasv {
      if Code(msg) == '2' {
        AddressOrFault(s, msg);
        PasvAcceptAdvances(s, msg);
      } else {
        PasvSkipAdvances(s, msg);
      }
    } else if Code(msg) == '1' {
      PreliminaryAdvances(s, msg);
    } else if Code(msg) == '2' {
      CompletionAdvances(s, msg);
    } else {
      BreakOffAdvances(s, msg);
    }
  }

  lemma CloseAdvances(s: Ftp)
    requires Sound(s) && s.xfer.dataChannel.Some?
    ensures Left(OnDataChannelDisconnect(s)) < Left(s) && InSession(OnDataChannelDisconnect(s))
  {
    var s1 := ResetDevices(NotifyEnd(s, s.ctl.q[0]));
    assert Paired(s.ctl.q[1..]);
    if s.ctl.state == Final {
      LeftAfterPop(s1, 1);
    }
  }

  lemma ReplyKeepsLeft(s: Ftp, msg: seq<byte>)
    requires Sound(s) && InSession(s) && !Advances(s, Reply(msg)) && !OnReply(s, msg).fault
    ensures Left(OnReply(s, msg)) == Left(s) && InSession(OnReply(s, msg))
  {
    if Rule(s.ctl.state, Code(msg)).None? {
      IgnoredReply(s, msg);
    } else if s.ctl.state == Pass && Code(msg) != '3' {
      LoginReply(s, msg);
    } else {
      LoginTalk(s, msg);
    }
  }

  lemma OtherKeepsLeft(s: Ftp, e: Event)
    requires Sound(s) && InSession(s) && Possible(s, e) && !e.Api? && !e.DataClosed? && !e.Reply?
    ensures Left(Step(s, e)) == Left(s) && InSession(Step(s, e))
  {
    StepMovesDevices(s, e);
  }

  /** An event of the devices leaves the queue and its state alone, and the data channel open. */
  lemma StepMovesDevices(s: Ftp, e: Event)
    requires Sound(s) && InSession(s) && Possible(s, e) && !e.Api? && !e.DataClosed? && !e.Reply?
    ensures var r := Step(s, e);
            && (s.ctl.inProgress ==> r.ctl == s.ctl) && r.ctl.q == s.ctl.q && r.ctl.inProgress == s.ctl.inProgress
            && r.xfer.dataChannel.Some? == s.xfer.dataChannel.Some?
  {
  }

  /** No event but an API call raises the weight, and every advancing one lowers it. */
  lemma StepLeft(s: Ftp, e: Event)
    requires Sound(s) && InSession(s) && Possible(s, e) && !Step(s, e).fault && !e.Api?
    ensures InSession(Step(s, e))
    ensures Left(Step(s, e)) + (if Advances(s, e) then 1 else 0) <= Left(s)
  {
    if e.DataClosed? {
      CloseAdvances(s);
    } else if Advances(s, e) {
      ReplyAdvances(s, e.msg);
    } else if e.Reply? {
      ReplyKeepsLeft(s, e.msg);
    } else {
      OtherKeepsLeft(s, e);
    }
  }

  lemma LeftNotNegative(s: Ftp)
    requires Sound(s)
    ensures Left(s) >= 0 && (InSession(s) ==> (Left(s) == 0 <==> Drained(s)))
  {
  }

  /** How many events of the run advance a command. */
  function Advanced(s: Ftp, es: seq<Event>): nat
    decreases |es|
  {
    if es == [] then 0
    else
      var before := es[..|es| - 1];
      Advanced(s, before) + if Advances(Run(s, before), es[|es| - 1]) then 1 else 0
  }

  /**
   Over every run without API calls that has not faulted: at most as many advancing events as the weight at its start,
   and once there have been that many the queue is empty and the flag clear.
   */
  lemma {:induction false} DrainBound(s: Ftp, es: seq<Event>)
    requires Sound(s) && InSession(s) && LiveRun(s, es) && forall e <- es :: !e.Api?
    ensures Sound(Run(s, es)) && InSession(Run(s, es))
    ensures Advanced(s, es) + Left(Run(s, es)) <= Left(s)
    ensures Advanced(s, es) == Left(s) ==> Drained(Run(s, es))
    decreases |es|
  {
    if es != [] {
      var before, e := es[..|es| - 1], es[|es| - 1];
      LiveBefore(s, es);
      DrainBound(s, before);
      assert e in es;
      StepSound(Run(s, before), e);
      StepLeft(Run(s, before), e);
    }
    LeftNotNegative(Run(s, es));
  }
}
