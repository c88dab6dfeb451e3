/**
 Who is called back. Over every run each event makes exactly the callbacks that are due, to the functions passed to the
 very call whose command is in flight, or to StartClient.
 */
module FtpCallbacks {
  import opened Wrappers
  import opened Bytes
  import opened FtpModel
  import opened FtpInvariant
  import opened FtpHistory
  import opened FtpOrder
  import opened FtpCalls

  /** What the call in flight was for, if the command in flight is a call's own. */
  function InFlightOrder(s: Ftp): Option<Order> {
    if InFlight(s) && s.ctl.q != [] && IsOwn(s.ctl.q[0]) && 0 < |Own(s.ctl.q)| <= |s.log.calls|
    then Some(OrderOf(CallOfFront(s)))
    else None
  }

  function ToChunks(s: Ftp): Option<nat> {
    if InFlightOrder(s).Some? then InFlightOrder(s).value.chunksTo else None
  }

  function ToReply(s: Ftp): Option<nat> {
    if InFlightOrder(s).Some? then InFlightOrder(s).value.replyTo else None
  }

  /** The callbacks an event calls for. */
  function Due(s: Ftp, e: Event): seq<Callback> {
    match e
    case Connect => if s.config.onConnect.Some? then [Online(s.config.onConnect.value)] else []
    case DataChunk(data, _) =>
      if ToChunks(s).Some? && s.xfer.continueTransfer then [Chunk(ToChunks(s).value, data)] else []
    case FileChunk(n, _) =>
      if ToChunks(s).Some? && s.xfer.continueTransfer then [Chunk(ToChunks(s).value, Pending(s.xfer, n))] else []
    case DataClosed => if ToChunks(s).Some? then [End(ToChunks(s).value)] else []
    case Reply(msg) =>
      if s.ctl.state == Gen && '1' <= Code(msg) <= '5' && ToReply(s).Some? then [Response(ToReply(s).value, msg)]
      else []
    case _ => []
  }

  /** The queue's front is what its call asked for. */
  ghost predicate FrontIsOwn(s: Ftp) {
    InFlight(s) && s.ctl.q != [] ==>
      && NamesItsLevel(s.ctl.q[0])
      && InFlightOrder(s) == if IsOwn(s.ctl.q[0]) then Some(AsOrder(s.ctl.q[0])) else None
  }

  lemma FrontReceives(s: Ftp)
    requires Sound(s) && FrontIsOwn(s) && InFlight(s)
    ensures InTransfer(s) ==> ToChunks(s) == s.ctl.q[0].tcbk
    ensures s.ctl.state == Gen ==> ToReply(s) == if s.ctl.q[0].rcbk.Caller? then Some(s.ctl.q[0].rcbk.id) else None
  {
    assert CmdOk(s.ctl.q[0]);
  }

  lemma QueueFrontIsOwn(s: Ftp, before: seq<Order>)
    requires OrdersOf(s.log.calls) == before + Own(s.ctl.q) && ValidCalls(s.log.calls) && LevelsNamed(s.ctl.q)
    ensures FrontIsOwn(s)
  {
    if s.ctl.q != [] {
      assert s.ctl.q[0] in s.ctl.q;
      if IsOwn(s.ctl.q[0]) {
        FrontIsItsCalls(s.log.calls, s.ctl.q, before);
      }
    }
  }

  lemma RunFrontIsOwn(config: Config, disk: map<string, seq<byte>>, es: seq<Event>)
    requires LiveRun(Init(config, disk), es)
    ensures FrontIsOwn(Run(Init(config, disk), es))
  {
    var before := QueueInCalls(config, disk, es);
    QueueFrontIsOwn(Run(Init(config, disk), es), before);
  }

  // -------- The steps --------

  lemma SkipCallsNobody(s: Ftp, count: nat)
    ensures SkipCommand(s, count).talk.callbacks == s.talk.callbacks
  {
  }

  lemma ActCallsNobody(s: Ftp, a: Action, msg: seq<byte>)
    requires !a.GenResponse?
    ensures Act(s, a, msg).talk.callbacks == s.talk.callbacks
  {
    match a
    case SkipTwo => SkipCallsNobody(s, 2);
    case PasvResponse => SkipCallsNobody(s, 1);
    case DataResponse(code) =>
      if code == '1' {
        assert InitializeFileDevice(s).talk == s.talk;
      } else {
        SkipCallsNobody(s, 1);
        SkipCallsNobody(ResetDevices(s), 1);
      }
    case _ =>
  }

  lemma ReplyCalls(s: Ftp, msg: seq<byte>)
    requires Sound(s) && FrontIsOwn(s)
    ensures OnReply(s, msg).talk.callbacks == s.talk.callbacks + Due(s, Reply(msg))
  {
    var rule := Rule(s.ctl.state, Code(msg));
    if rule.None? {
      IgnoredReply(s, msg);
    } else if s.ctl.state == Gen {
      assert s.ctl.inProgress;
      FrontReceives(s);
      GenReply(s, msg);
      var s1 := NoteAnswer(RunResponse(To(s, Ready), s.ctl.q[0], msg), msg);
      SkipCallsNobody(s1, 1);
    } else {
      ActCallsNobody(To(s, rule.value.0), rule.value.1, msg);
    }
  }

  lemma ChunkCalls(s: Ftp, e: Event)
    requires Sound(s) && FrontIsOwn(s) && (e.DataChunk? || e.FileChunk?) && Possible(s, e) && !Step(s, e).fault
    ensures Step(s, e).talk.callbacks == s.talk.callbacks + Due(s, e)
  {
    FaultsIff(s, e);
    FrontReceives(s);
  }

  lemma CloseCalls(s: Ftp)
    requires Sound(s) && FrontIsOwn(s) && s.xfer.dataChannel.Some?
    ensures Step(s, DataClosed).talk.callbacks == s.talk.callbacks + Due(s, DataClosed)
  {
    FrontReceives(s);
    ActCallsNobody(NotifyEnd(s, s.ctl.q[0]), DataResponse('0'), []);
  }

  lemma StepCallsBack(s: Ftp, e: Event)
    requires Sound(s) && FrontIsOwn(s) && Possible(s, e) && !Step(s, e).fault
    ensures Step(s, e).talk.callbacks == s.talk.callbacks + Due(s, e)
  {
    match e
    case Reply(msg) => ReplyCalls(s, msg);
    case DataClosed => CloseCalls(s);
    case DataChunk(_, _) => ChunkCalls(s, e);
    case FileChunk(_, _) => ChunkCalls(s, e);
    case Api(call) => assert Append(s, call).talk == s.talk;
    case _ =>
  }

  /**
   Over every run that has not faulted each event makes exactly the callbacks that are due: a chunk and the end of the
   data go to the callback of the call whose transfer is in flight, a reply to that of the call whose command is in
   flight, the connection to the one passed to StartClient, and nothing else calls anybody.
   */
  lemma CallsBackWhatIsDue(config: Config, disk: map<string, seq<byte>>, es: seq<Event>, e: Event)
    requires LiveRun(Init(config, disk), es)
    requires Possible(Run(Init(config, disk), es), e) && !Step(Run(Init(config, disk), es), e).fault
    ensures var s := Run(Init(config, disk), es);
            Step(s, e).talk.callbacks == s.talk.callbacks + Due(s, e)
  {
    RunHistory(config, disk, es);
    RunFrontIsOwn(config, disk, es);
    StepCallsBack(Run(Init(config, disk), es), e);
  }
}
