/**
 What a transfer moves, over any run from the preliminary reply on: a download leaves in the local file, and hands its
 callback, exactly the chunks up to and including the first one the callback refused; an upload has written to the
 data channel exactly the part of the local file before the current offset, unless the server itself sends data. And
 when the data channel is shut down.
 */
module FtpTransfer {
  import opened Wrappers
  import opened Bytes
  import opened FtpModel
  import opened FtpInvariant
  import opened FtpJoin

  /** A chunk, from the data channel or from the local file, that is offered to the callback. */
  predicate IsChunk(e: Event) {
    e.DataChunk? || e.FileChunk?
  }

  /** The callback has not asked for the transfer to end. */
  predicate Willing(es: seq<Event>) {
    es == [] || (Willing(es[..|es| - 1]) && (IsChunk(es[|es| - 1]) ==> es[|es| - 1].more))
  }

  /** A chunk has come after the callback had asked for the transfer to end. */
  predicate ChunkAfterRefusal(es: seq<Event>) {
    es != [] && (ChunkAfterRefusal(es[..|es| - 1]) || (IsChunk(es[|es| - 1]) && !Willing(es[..|es| - 1])))
  }

  /** The chunks that count: all of them, or with a callback those up to and including the first refused one. */
  function Accepted(cbk: bool, es: seq<Event>): seq<byte> {
    if es == [] then []
    else
      var before, e := es[..|es| - 1], es[|es| - 1];
      Accepted(cbk, before) + if e.DataChunk? && (cbk ==> Willing(before)) then e.data else []
  }

  /** The bytes handed to transfer callbacks. */
  function Given(callbacks: seq<Callback>): seq<byte> {
    if callbacks == [] then []
    else
      var last := callbacks[|callbacks| - 1];
      Given(callbacks[..|callbacks| - 1]) + if last.Chunk? then last.data else []
  }

  lemma GivenOne(callbacks: seq<Callback>, c: Callback)
    ensures Given(callbacks + [c]) == Given(callbacks) + if c.Chunk? then c.data else []
  {
    assert (callbacks + [c])[..|callbacks|] == callbacks;
  }

  /** `got` written over the beginning of `base`. */
  function Overlay(base: seq<byte>, got: seq<byte>): seq<byte> {
    got + if |got| <= |base| then base[|got|..] else []
  }

  lemma WriteExtends(base: seq<byte>, got: seq<byte>, b: seq<byte>)
    ensures WriteAt(Overlay(base, got), |got|, b) == Overlay(base, got + b)
  {
    assert Overlay(base, got)[..|got|] == got;
    if |got + b| <= |base| {
      assert Overlay(base, got)[|got| + |b|..] == base[|got + b|..];
    }
  }

  /** The file ends up as the bytes received exactly if nothing longer was there before. */
  lemma OverlayIsExactIff(base: seq<byte>, got: seq<byte>)
    ensures Overlay(base, got) == got <==> |base| <= |got|
  {
  }

  // -------- How a transfer starts --------

  /**
   What is known when the preliminary reply comes: the history so far, the command, what the local file holds once it
   is open, what callbacks were given and channels have carried before, and whether the data channel has already
   closed or been shut down.
   */
  datatype Origin = Origin(log: Log, front: Cmd, base: seq<byte>, given: seq<byte>, carried: seq<byte>,
                           closed: bool, stopped: bool)

  function OriginOf(s: Ftp): Origin
    requires s.ctl.q != []
  {
    var c, channel := s.ctl.q[0], s.xfer.dataChannel;
    Origin(s.log, c, if c.verb == RETR && s.config.truncates then [] else Content(s.xfer, c.local),
           Given(s.talk.callbacks), s.talk.carried, channel.None?, channel.Some? && channel.value.stopped)
  }

  predicate HasCallback(o: Origin) {
    o.front.tcbk.Some?
  }

  function Closing(o: Origin, es: seq<Event>): bool {
    o.closed || Closed(es)
  }

  /** Nothing has ended the transfer yet. */
  predicate Going(s: Ftp, o: Origin, es: seq<Event>) {
    s.ctl.state != Data && Phase(s, o.log, o.front, StageAfter(Begun, es), Closing(o, es))
  }

  predicate StillGoing(o: Origin, es: seq<Event>) {
    !Over(StageAfter(Begun, es), Closing(o, es))
  }

  lemma GoesOn(s: Ftp, o: Origin, es: seq<Event>, e: Event)
    requires Inv(s) && Going(s, o, es) && StillGoing(o, es) && Possible(s, e) && Orderly(s, e)
    ensures if StillGoing(o, es + [e]) then Going(Step(s, e), o, es + [e]) else Ended(Step(s, e), o.log, o.front)
  {
    StepKeeps(s, e);
    StageOne(Begun, es, e);
    StepPhase(s, o.log, o.front, StageAfter(Begun, es), Closing(o, es), e);
  }

  // -------- Downloads --------

  /** While the channel is open it is shut down exactly if it was before, or a chunk has come after a refused one. */
  predicate StoppedByRefusal(s: Ftp, o: Origin, es: seq<Event>) {
    s.xfer.dataChannel.Some? ==>
      (s.xfer.dataChannel.value.stopped <==> o.stopped || (HasCallback(o) && ChunkAfterRefusal(es)))
  }

  predicate Moved(s: Ftp, o: Origin, es: seq<Event>) {
    var got := Accepted(HasCallback(o), es);
    && (o.front.local != "" ==> Content(s.xfer, o.front.local) == Overlay(o.base, got))
    && Given(s.talk.callbacks) == if HasCallback(o) then o.given + got else o.given
  }

  predicate Downloading(s: Ftp, o: Origin, es: seq<Event>) {
    && Going(s, o, es) && o.front.verb != STOR && Moved(s, o, es) && StoppedByRefusal(s, o, es)
    && (s.xfer.fileDevice.Some? ==> s.xfer.offset == |Accepted(HasCallback(o), es)|)
    && (s.xfer.dataChannel.Some? && HasCallback(o) ==> s.xfer.continueTransfer == Willing(es))
  }

  lemma StoreContent(x: Transfer, b: seq<byte>, base: seq<byte>, got: seq<byte>)
    requires x.fileDevice.Some? && x.offset == |got|
    requires Content(x, x.fileDevice.value.path) == Overlay(base, got)
    ensures Content(Store(x, b), x.fileDevice.value.path) == Overlay(base, got + b)
    ensures Store(x, b).offset == |got + b|
  {
    WriteExtends(base, got, b);
  }

  /** What one more event adds to what is counted. */
  lemma CountOne(cbk: bool, es: seq<Event>, e: Event)
    ensures Willing(es + [e]) <==> Willing(es) && (IsChunk(e) ==> e.more)
    ensures ChunkAfterRefusal(es + [e]) <==> ChunkAfterRefusal(es) || (IsChunk(e) && !Willing(es))
    ensures Accepted(cbk, es + [e]) == Accepted(cbk, es) + if e.DataChunk? && (cbk ==> Willing(es)) then e.data else []
  {
    assert (es + [e])[..|es|] == es;
  }

  lemma RefusedChunkDownloads(s: Ftp, o: Origin, es: seq<Event>, e: Event)
    requires Inv(s) && Downloading(s, o, es) && e.DataChunk? && Possible(s, e) && Refused(s, o.front)
    requires Going(Step(s, e), o, es + [e])
    ensures Downloading(Step(s, e), o, es + [e])
  {
    CountOne(HasCallback(o), es, e);
    assert Step(s, e) == StopChannel(s);
    assert Accepted(HasCallback(o), es + [e]) == Accepted(HasCallback(o), es);
  }

  lemma AcceptedChunkDownloads(s: Ftp, o: Origin, es: seq<Event>, e: Event)
    requires Inv(s) && Downloading(s, o, es) && e.DataChunk? && Possible(s, e) && !Refused(s, o.front)
    requires Going(Step(s, e), o, es + [e])
    ensures Downloading(Step(s, e), o, es + [e])
  {
    var got := Accepted(HasCallback(o), es);
    CountOne(HasCallback(o), es, e);
    if HasCallback(o) {
      GivenOne(s.talk.callbacks, Chunk(o.front.tcbk.value, e.data));
      Regroup(o.given, got, e.data);
    }
    var s1 := ChunkTo(s, o.front, e.data, e.more);
    assert s1.xfer.fileDevice.Some? <==> o.front.local != "";
    if s1.xfer.fileDevice.Some? {
      StoreContent(s1.xfer, e.data, o.base, got);
    }
    assert Accepted(HasCallback(o), es + [e]) == got + e.data;
  }

  /** A reply that does not end the transfer leaves everything it moves alone. */
  lemma ReplyLeaves(s: Ftp, msg: seq<byte>)
    requires Sound(s) && InTransfer(s) && s.ctl.state != Data
    ensures var r := OnReply(s, msg);
            && r.talk.callbacks == s.talk.callbacks && r.talk.carried == s.talk.carried && r.xfer.disk == s.xfer.disk
            && (NextStage(StageIn(s.ctl.state), Reply(msg)) != Broken ==> r.xfer == s.xfer)
  {
    if Rule(s.ctl.state, Code(msg)).None? {
      IgnoredReply(s, msg);
    } else if Code(msg) == '2' {
      CompletionReply(s, msg);
    } else {
      BreakOffReply(s, msg);
    }
  }

  lemma CloseLeaves(s: Ftp)
    requires Sound(s) && InTransfer(s) && s.ctl.state != Data && s.xfer.dataChannel.Some?
    ensures var r := OnDataChannelDisconnect(s);
            && r.talk.carried == s.talk.carried && Given(r.talk.callbacks) == Given(s.talk.callbacks)
            && r.xfer == s.xfer.(dataChannel := None, fileDevice := None)
  {
    if s.ctl.q[0].tcbk.Some? {
      GivenOne(s.talk.callbacks, End(s.ctl.q[0].tcbk.value));
    }
  }

  /** What an event that is not a chunk leaves alone. */
  lemma OtherLeaves(s: Ftp, e: Event)
    requires Inv(s) && InTransfer(s) && s.ctl.state != Data && s.ctl.q[0].verb != STOR && Possible(s, e)
    requires !e.DataChunk?
    ensures var r := Step(s, e);
            && r.xfer.disk == s.xfer.disk && Given(r.talk.callbacks) == Given(s.talk.callbacks)
            && (NextStage(StageIn(s.ctl.state), e) != Broken ==>
                  && r.xfer.offset == s.xfer.offset && r.xfer.continueTransfer == s.xfer.continueTransfer
                  && (r.xfer.fileDevice.Some? ==> s.xfer.fileDevice.Some?)
                  && (r.xfer.dataChannel.Some? ==>
                        s.xfer.dataChannel.Some?
                        && r.xfer.dataChannel.value.stopped == s.xfer.dataChannel.value.stopped))
  {
    match e
    case Reply(msg) => ReplyLeaves(s, msg);
    case DataClosed => CloseLeaves(s);
    case Api(call) => assert OnCall(s, call).xfer == s.xfer;
    case DataHandshake =>
    case _ =>
  }

  lemma OtherDownloads(s: Ftp, o: Origin, es: seq<Event>, e: Event)
    requires Inv(s) && Downloading(s, o, es) && Possible(s, e) && !e.DataChunk?
    requires StillGoing(o, es + [e]) && Going(Step(s, e), o, es + [e])
    ensures Downloading(Step(s, e), o, es + [e])
  {
    StageOne(Begun, es, e);
    CountOne(HasCallback(o), es, e);
    OtherLeaves(s, e);
    assert Accepted(HasCallback(o), es + [e]) == Accepted(HasCallback(o), es);
  }

  lemma StepDownloads(s: Ftp, o: Origin, es: seq<Event>, e: Event)
    requires Inv(s) && Downloading(s, o, es) && StillGoing(o, es) && Possible(s, e) && Orderly(s, e)
    requires StillGoing(o, es + [e])
    ensures Downloading(Step(s, e), o, es + [e])
  {
    GoesOn(s, o, es, e);
    if !e.DataChunk? {
      OtherDownloads(s, o, es, e);
    } else if Refused(s, o.front) {
      RefusedChunkDownloads(s, o, es, e);
    } else {
      AcceptedChunkDownloads(s, o, es, e);
    }
  }

  /** What the preliminary reply opens. */
  lemma Opens(s: Ftp, msg: seq<byte>)
    requires !s.fault && s.ctl.inProgress && s.ctl.state == Data && Code(msg) == '1' && s.ctl.q != [] && CanBegin(s)
    requires s.xfer.fileDevice.None? && s.ctl.q[0].verb != LIST && (s.ctl.q[0].verb == STOR ==> s.ctl.q[0].local != "")
    requires s.xfer.dataChannel.Some? ==> !s.xfer.dataChannel.value.handshaking
    ensures var r, c := OnReply(s, msg), s.ctl.q[0];
            && r.ctl == To(s, Mark).ctl && r.log == s.log && r.talk == s.talk && r.xfer.continueTransfer
            && (c.local == "" ==> r.xfer.disk == s.xfer.disk && r.xfer.fileDevice.None?)
            && (c.local != "" ==>
                  && r.xfer.fileDevice.Some? && r.xfer.fileDevice.value.path == c.local && r.xfer.offset == 0
                  && Content(r.xfer, c.local) == OriginOf(s).base)
            && r.xfer.dataChannel.Some? == s.xfer.dataChannel.Some?
            && (r.xfer.dataChannel.Some? ==>
                  && r.xfer.dataChannel.value.stopped == s.xfer.dataChannel.value.stopped
                  && r.xfer.dataChannel.value.out == s.xfer.dataChannel.value.out
                  && (c.verb == STOR ==>
                        r.xfer.fileDevice.value.pending == if r.xfer.dataChannel.value.handshaking then 0 else 1))
  {
    PreliminaryReply(s, msg);
  }

  /** The same for a listing, which has no local file. */
  lemma ListingOpens(s: Ftp, msg: seq<byte>)
    requires !s.fault && s.ctl.inProgress && s.ctl.state == Data && Code(msg) == '1' && s.ctl.q != [] && CanBegin(s)
    requires s.xfer.fileDevice.None? && s.ctl.q[0].verb == LIST && s.ctl.q[0].local == ""
    ensures var r := OnReply(s, msg);
            && r.ctl == To(s, Mark).ctl && r.log == s.log && r.talk == s.talk && r.xfer.continueTransfer
            && r.xfer.fileDevice.None?
            && r.xfer.dataChannel.Some? == s.xfer.dataChannel.Some?
            && (r.xfer.dataChannel.Some? ==> r.xfer.dataChannel.value.stopped == s.xfer.dataChannel.value.stopped)
  {
    PreliminaryReply(s, msg);
  }

  /** The state right after the preliminary reply. */
  lemma StartsDownload(s: Ftp, msg: seq<byte>)
    requires Inv(s) && s.ctl.inProgress && s.ctl.state == Data && Code(msg) == '1' && s.ctl.q[0].verb != STOR
    requires Orderly(s, Reply(msg))
    ensures Inv(OnReply(s, msg)) && Downloading(OnReply(s, msg), OriginOf(s), [])
  {
    ReplyKeeps(s, msg);
    assert CmdOk(s.ctl.q[0]);
    if s.ctl.q[0].verb == LIST {
      ListingOpens(s, msg);
    } else {
      Opens(s, msg);
    }
  }

  /** No event of the run before its last one has ended the transfer. */
  lemma GoingBefore(o: Origin, es: seq<Event>)
    requires es != [] && StillGoing(o, es)
    ensures StillGoing(o, es[..|es| - 1])
  {
  }

  lemma DownloadOne(r: Ftp, o: Origin, es: seq<Event>, e: Event)
    requires Inv(r) && Downloading(r, o, es) && Possible(r, e) && Orderly(r, e) && StillGoing(o, es)
    requires StillGoing(o, es + [e])
    ensures Inv(Step(r, e)) && Downloading(Step(r, e), o, es + [e])
  {
    StepKeeps(r, e);
    StepDownloads(r, o, es, e);
  }

  /** At every moment of a download, from the preliminary reply on. */
  lemma {:induction false} DownloadRun(s: Ftp, msg: seq<byte>, es: seq<Event>)
    requires Inv(s) && s.ctl.inProgress && s.ctl.state == Data && Code(msg) == '1' && s.ctl.q[0].verb != STOR
    requires Orderly(s, Reply(msg)) && OrderlyRun(OnReply(s, msg), es) && StillGoing(OriginOf(s), es)
    ensures Inv(Run(OnReply(s, msg), es)) && Downloading(Run(OnReply(s, msg), es), OriginOf(s), es)
    decreases |es|
  {
    if es == [] {
      StartsDownload(s, msg);
    } else {
      var before, e := es[..|es| - 1], es[|es| - 1];
      GoingBefore(OriginOf(s), es);
      DownloadRun(s, msg, before);
      SplitLast(es);
      DownloadOne(Run(OnReply(s, msg), before), OriginOf(s), before, e);
    }
  }

  /** The event that retires the download adds nothing to it. */
  lemma LastDownloads(s: Ftp, o: Origin, es: seq<Event>, e: Event)
    requires Inv(s) && Downloading(s, o, es) && StillGoing(o, es) && Possible(s, e) && Orderly(s, e)
    requires !StillGoing(o, es + [e])
    ensures Ended(Step(s, e), o.log, o.front) && Moved(Step(s, e), o, es + [e])
  {
    GoesOn(s, o, es, e);
    StageOne(Begun, es, e);
    CountOne(HasCallback(o), es, e);
    OtherLeaves(s, e);
    assert Accepted(HasCallback(o), es + [e]) == Accepted(HasCallback(o), es);
  }

  /**
   A download from its preliminary reply to the event that retires it, be it the second of completion reply and close,
   or a reply of class 4: the local file holds the accepted chunks, in order, over what was there before (nothing,
   where opening the file truncates it), and the callback was given the same.
   */
  lemma DownloadContent(s: Ftp, msg: seq<byte>, es: seq<Event>)
    requires Inv(s) && s.ctl.inProgress && s.ctl.state == Data && Code(msg) == '1' && s.ctl.q[0].verb != STOR
    requires Orderly(s, Reply(msg)) && OrderlyRun(OnReply(s, msg), es)
    requires es != [] && StillGoing(OriginOf(s), es[..|es| - 1]) && !StillGoing(OriginOf(s), es)
    ensures Ended(Run(OnReply(s, msg), es), s.log, s.ctl.q[0]) && Moved(Run(OnReply(s, msg), es), OriginOf(s), es)
  {
    var before, e := es[..|es| - 1], es[|es| - 1];
    DownloadRun(s, msg, before);
    SplitLast(es);
    LastDownloads(Run(OnReply(s, msg), before), OriginOf(s), before, e);
  }

  /**
   A refusal alone stops nothing: when the callback refuses a chunk, the chunk is still stored, and the channel is not
   shut down, so a server that has no more to send but keeps the channel open is left to it.
   */
  lemma RefusalAloneStopsNothing(s: Ftp, msg: seq<byte>, b: seq<byte>)
    requires Inv(s) && s.ctl.inProgress && s.ctl.state == Data && Code(msg) == '1' && s.ctl.q[0].verb != STOR
    requires s.xfer.dataChannel.Some? && !s.xfer.dataChannel.value.stopped && s.ctl.q[0].tcbk.Some? && b != []
    ensures var r := Step(OnReply(s, msg), DataChunk(b, false));
            && r.xfer.dataChannel.Some? && !r.xfer.dataChannel.value.stopped && Refused(r, s.ctl.q[0])
            && (s.ctl.q[0].local != "" ==> Content(r.xfer, s.ctl.q[0].local) == Overlay(OriginOf(s).base, b))
  {
    var r, e, o := OnReply(s, msg), DataChunk(b, false), OriginOf(s);
    StartsDownload(s, msg);
    StageOne(Begun, [], e);
    CountOne(true, [], e);
    assert [] + [e] == [e];
    StepDownloads(r, o, [], e);
    assert Accepted(true, [e]) == b;
  }

  // -------- Chunks before the preliminary reply --------

  /**
   Such a chunk is not written to the local file, and shuts the channel down exactly if the callback counts as
   unwilling.
   */
  lemma EarlyChunkIsNotStored(s: Ftp, b: seq<byte>, more: bool)
    requires Inv(s) && s.ctl.inProgress && s.ctl.state == Data && s.xfer.dataChannel.Some? && b != []
    ensures var r := Step(s, DataChunk(b, more));
            && r.xfer.disk == s.xfer.disk && r.xfer.dataChannel.Some?
            && (r.xfer.dataChannel.value.stopped <==> s.xfer.dataChannel.value.stopped || Refused(s, s.ctl.q[0]))
  {
    assert s.xfer.fileDevice.None?;
  }

  /** The event is a preliminary reply that begins a transfer. */
  predicate Begins(s: Ftp, e: Event) {
    e.Reply? && s.ctl.inProgress && s.ctl.state == Data && Code(e.msg) == '1'
  }

  predicate NoneBegins(s: Ftp, es: seq<Event>)
    decreases |es|
  {
    es != [] ==> NoneBegins(s, es[..|es| - 1]) && !Begins(Run(s, es[..|es| - 1]), es[|es| - 1])
  }

  lemma ReplyKeepsUnwilling(s: Ftp, msg: seq<byte>)
    requires Inv(s) && !s.xfer.continueTransfer && !Begins(s, Reply(msg)) && Orderly(s, Reply(msg))
    ensures !OnReply(s, msg).xfer.continueTransfer
  {
    if Rule(s.ctl.state, Code(msg)).None? {
      IgnoredReply(s, msg);
    } else if s.ctl.state == Mark && Code(msg) == '2' {
      CompletionReply(s, msg);
    } else if s.ctl.state == Data || s.ctl.state == Mark {
      BreakOffReply(s, msg);
    }
  }

  lemma StepKeepsUnwilling(s: Ftp, e: Event)
    requires Inv(s) && !s.xfer.continueTransfer && Possible(s, e) && Orderly(s, e) && !Begins(s, e)
    ensures !Step(s, e).xfer.continueTransfer
  {
    match e
    case Reply(msg) => ReplyKeepsUnwilling(s, msg);
    case Api(call) => assert OnCall(s, call).xfer == s.xfer;
    case _ =>
  }

  /** Until the first transfer of a session has begun, every callback counts as unwilling. */
  lemma {:induction false} UnwillingAtFirst(config: Config, disk: map<string, seq<byte>>, es: seq<Event>)
    requires OrderlyRun(Init(config, disk), es) && NoneBegins(Init(config, disk), es)
    ensures !Run(Init(config, disk), es).xfer.continueTransfer
    decreases |es|
  {
    if es != [] {
      var before, e := es[..|es| - 1], es[|es| - 1];
      UnwillingAtFirst(config, disk, before);
      RunKeeps(Init(config, disk), before);
      StepKeepsUnwilling(Run(Init(config, disk), before), e);
    }
  }
}
