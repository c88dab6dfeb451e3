/**
 How a transfer callback learns that there is no more data: over the whole life of a transfer, however it ends, it is
 called once without data if the data channel closes before the transfer is retired, after all chunks, and else never.
 */
module FtpEnd {
  import opened Wrappers
  import opened Bytes
  import opened FtpModel
  import opened FtpInvariant
  import opened FtpJoin

  function Ends(callbacks: seq<Callback>): nat {
    if callbacks == [] then 0
    else Ends(callbacks[..|callbacks| - 1]) + if callbacks[|callbacks| - 1].End? then 1 else 0
  }

  lemma EndsOne(callbacks: seq<Callback>, c: Callback)
    ensures Ends(callbacks + [c]) == Ends(callbacks) + if c.End? then 1 else 0
  {
    assert (callbacks + [c])[..|callbacks|] == callbacks;
  }

  /**
   Since there had been `ends` such calls: one more, the last callback of all, if the channel has closed; else none.
   */
  predicate Told(callbacks: seq<Callback>, ends: nat, front: Cmd, closed: bool) {
    if front.tcbk.Some? && closed then
      Ends(callbacks) == ends + 1 && callbacks != [] && callbacks[|callbacks| - 1] == End(front.tcbk.value)
    else Ends(callbacks) == ends
  }

  /** A reply to a transfer calls nobody. */
  lemma ReplyTellsNobody(s: Ftp, msg: seq<byte>)
    requires Sound(s) && InTransfer(s)
    ensures OnReply(s, msg).talk.callbacks == s.talk.callbacks
  {
    if Rule(s.ctl.state, Code(msg)).None? {
      IgnoredReply(s, msg);
    } else if Code(msg) == '1' {
      PreliminaryReply(s, msg);
      var s1 := InitializeFileDevice(To(s, Mark));
      assert s1.talk == s.talk;
    } else if Code(msg) == '2' {
      CompletionReply(s, msg);
    } else {
      BreakOffReply(s, msg);
    }
  }

  lemma CloseTells(s: Ftp)
    requires Sound(s) && InTransfer(s)
    ensures OnDataChannelDisconnect(s).talk.callbacks
            == s.talk.callbacks + if s.ctl.q[0].tcbk.Some? then [End(s.ctl.q[0].tcbk.value)] else []
  {
  }

  /** Other events hand over chunks, and after the close nothing. */
  lemma OtherTells(s: Ftp, e: Event)
    requires Sound(s) && InTransfer(s) && Possible(s, e) && !e.Reply? && !e.DataClosed? && !Step(s, e).fault
    ensures var now, was := Step(s, e).talk.callbacks, s.talk.callbacks;
            now == was || (s.xfer.dataChannel.Some? && now != [] && now[..|now| - 1] == was && now[|now| - 1].Chunk?)
  {
    match e
    case Api(call) => assert OnCall(s, call).talk == s.talk;
    case _ =>
  }

  lemma ToldChunk(was: seq<Callback>, now: seq<Callback>, ends: nat, front: Cmd, closed: bool)
    requires Told(was, ends, front, closed) && !closed && now != [] && now[..|now| - 1] == was && now[|now| - 1].Chunk?
    ensures Told(now, ends, front, closed)
  {
  }

  lemma StepTells(s: Ftp, ends: nat, log: Log, front: Cmd, stage: Stage, early: bool, es: seq<Event>, e: Event)
    requires Sound(s) && Phase(s, log, front, stage, early || Closed(es)) && Possible(s, e) && !Step(s, e).fault
    requires Told(s.talk.callbacks, ends, front, Closed(es))
    ensures Told(Step(s, e).talk.callbacks, ends, front, Closed(es + [e]))
  {
    StageOne(stage, es, e);
    if e.Reply? {
      ReplyTellsNobody(s, e.msg);
    } else if e.DataClosed? {
      CloseTells(s);
      if front.tcbk.Some? {
        EndsOne(s.talk.callbacks, End(front.tcbk.value));
      }
    } else {
      OtherTells(s, e);
      if Step(s, e).talk.callbacks != s.talk.callbacks {
        ToldChunk(s.talk.callbacks, Step(s, e).talk.callbacks, ends, front, Closed(es));
      }
    }
  }

  lemma TellsOne(s: Ftp, es: seq<Event>, e: Event)
    requires Sound(s) && InTransfer(s) && LiveRun(s, es) && !OverAfter(s, es) && Possible(Run(s, es), e)
    requires !Step(Run(s, es), e).fault
    requires Told(Run(s, es).talk.callbacks, Ends(s.talk.callbacks), s.ctl.q[0], Closed(es))
    ensures Told(Step(Run(s, es), e).talk.callbacks, Ends(s.talk.callbacks), s.ctl.q[0], Closed(es + [e]))
  {
    NotBeforeBoth(s, es);
    RunSound(s, es);
    StepTells(Run(s, es), Ends(s.talk.callbacks), s.log, s.ctl.q[0], StageAfter(StageIn(s.ctl.state), es),
              s.xfer.dataChannel.None?, es, e);
  }

  /** Nothing before the last event of `es` has ended the transfer. */
  predicate Lasts(s: Ftp, es: seq<Event>) {
    es == [] || !OverAfter(s, es[..|es| - 1])
  }

  lemma LastsBefore(s: Ftp, es: seq<Event>)
    requires es != [] && Lasts(s, es)
    ensures Lasts(s, es[..|es| - 1]) && !OverAfter(s, es[..|es| - 1])
  {
    var before := es[..|es| - 1];
    if before != [] && OverAfter(s, before[..|before| - 1]) {
      OverStays(s, before);
    }
  }

  /**
   From any moment of a transfer on, up to and including the event that retires it, whatever that event is: the
   callback has been told that there is no more data exactly once, and nothing after that, if the data channel has
   closed in the meantime; and has not been told otherwise.
   */
  lemma {:induction false} ToldIffClosed(s: Ftp, es: seq<Event>)
    requires Sound(s) && InTransfer(s) && LiveRun(s, es) && Lasts(s, es)
    ensures Told(Run(s, es).talk.callbacks, Ends(s.talk.callbacks), s.ctl.q[0], Closed(es))
    decreases |es|
  {
    if es != [] {
      var before, e := es[..|es| - 1], es[|es| - 1];
      LiveBefore(s, es);
      LastsBefore(s, es);
      ToldIffClosed(s, before);
      TellsOne(s, before, e);
      SplitLast(es);
    }
  }

  /** Of a transfer that ends by completion reply and close the callback has been told exactly once. */
  lemma ToldOnce(s: Ftp, es: seq<Event>)
    requires Sound(s) && InTransfer(s) && s.xfer.dataChannel.Some? && LiveRun(s, es) && JustOver(s, es)
    requires StageAfter(StageIn(s.ctl.state), es) == Complete
    ensures Told(Run(s, es).talk.callbacks, Ends(s.talk.callbacks), s.ctl.q[0], true)
  {
    ToldIffClosed(s, es);
  }

  /**
   Of one that the server refuses or breaks off it is told if and only if the data channel closed before that reply.
   */
  lemma RefusedIsToldIff(s: Ftp, es: seq<Event>)
    requires Sound(s) && InTransfer(s) && s.xfer.dataChannel.Some? && LiveRun(s, es) && JustOver(s, es)
    requires StageAfter(StageIn(s.ctl.state), es) == Broken && s.ctl.q[0].tcbk.Some?
    ensures Ended(Run(s, es), s.log, s.ctl.q[0])
    ensures Ends(Run(s, es).talk.callbacks) == Ends(s.talk.callbacks) + (if Closed(es[..|es| - 1]) then 1 else 0)
  {
    ExactlyAtBoth(s, es);
    ToldIffClosed(s, es);
  }
}
