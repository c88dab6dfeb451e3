/**
 What an upload moves: over any run from the preliminary reply to the retirement, the data channels have carried
 exactly the part of the local file that was read, and all of it once its end was seen, unless the server itself sends
 data.
 */
module FtpUpload {
  import opened Wrappers
  import opened Bytes
  import opened FtpModel
  import opened FtpInvariant
  import opened FtpJoin
  import opened FtpTransfer

  predicate EndSeen(es: seq<Event>) {
    es != [] && (es[|es| - 1].FileEnd? || EndSeen(es[..|es| - 1]))
  }

  /** The file has ended, or a chunk of it has been read after a refusal: no read is started any more. */
  predicate ReadsOver(cbk: bool, es: seq<Event>) {
    es != [] &&
      var before, e := es[..|es| - 1], es[|es| - 1];
      ReadsOver(cbk, before) || e.FileEnd? || (e.FileChunk? && cbk && !Willing(before))
  }

  /** How many bytes of the file have been read and, with a callback, not refused before they came. */
  function Uploaded(cbk: bool, es: seq<Event>): nat {
    if es == [] then 0
    else
      var before, e := es[..|es| - 1], es[|es| - 1];
      Uploaded(cbk, before) + if e.FileChunk? && (cbk ==> Willing(before)) then e.length else 0
  }

  lemma ReadOne(cbk: bool, es: seq<Event>, e: Event)
    ensures EndSeen(es + [e]) <==> EndSeen(es) || e.FileEnd?
    ensures ReadsOver(cbk, es + [e]) <==> ReadsOver(cbk, es) || e.FileEnd? || (e.FileChunk? && cbk && !Willing(es))
    ensures Uploaded(cbk, es + [e]) == Uploaded(cbk, es) + if e.FileChunk? && (cbk ==> Willing(es)) then e.length else 0
  {
    assert (es + [e])[..|es|] == es;
  }

  /**
   What was read has been carried, and given to the callback; all of the file, once its end has been seen. While the
   channel is open the offset says how much that is.
   */
  predicate Carried(s: Ftp, o: Origin, es: seq<Event>) {
    var n := Uploaded(HasCallback(o), es);
    && n <= |o.base| && (EndSeen(es) ==> n == |o.base|)
    && s.talk.carried == o.carried + o.base[..n]
    && (HasCallback(o) ==> Given(s.talk.callbacks) == o.given + o.base[..n])
    && (s.xfer.dataChannel.Some? ==>
          s.xfer.fileDevice.Some? && s.xfer.offset == n && s.xfer.dataChannel.value.out == o.base[..n])
  }

  /**
   While the channel is open one read is pending from the end of the handshake to the end of the reads, and the
   channel is shut down exactly if it was before, the file has ended, or a chunk has come after a refused one.
   */
  predicate Pumping(s: Ftp, o: Origin, es: seq<Event>) {
    s.xfer.dataChannel.Some? ==>
      var channel := s.xfer.dataChannel.value;
      && s.xfer.fileDevice.Some?
      && s.xfer.fileDevice.value.pending == (if channel.handshaking || ReadsOver(HasCallback(o), es) then 0 else 1)
      && (channel.stopped <==> o.stopped || EndSeen(es) || (HasCallback(o) && ChunkAfterRefusal(es)))
      && (channel.handshaking ==> s.xfer.offset == 0 && !ReadsOver(HasCallback(o), es))
      && (HasCallback(o) ==> s.xfer.continueTransfer == Willing(es))
  }

  predicate Uploading(s: Ftp, o: Origin, es: seq<Event>) {
    && Going(s, o, es) && o.front.verb == STOR && Content(s.xfer, o.front.local) == o.base
    && Carried(s, o, es) && Pumping(s, o, es)
  }

  /** The server sends data although the callback has not asked for the transfer to end. */
  predicate Disturbs(o: Origin, es: seq<Event>, e: Event) {
    e.DataChunk? && !(HasCallback(o) && !Willing(es))
  }

  predicate QuietServer(o: Origin, es: seq<Event>) {
    es == [] || (QuietServer(o, es[..|es| - 1]) && !Disturbs(o, es[..|es| - 1], es[|es| - 1]))
  }

  /** What a read of the local file does to the transfer. */
  lemma ReadMoves(s: Ftp, n: nat, more: bool)
    requires Inv(s) && InTransfer(s) && Possible(s, FileChunk(n, more)) && s.xfer.dataChannel.Some?
    ensures var r, c, b := Step(s, FileChunk(n, more)), s.ctl.q[0], Pending(s.xfer, n);
            if Refused(s, c) then r == StopChannel(s.(xfer := FinishRead(s.xfer)))
            else r == Carry(ChunkTo(s.(xfer := FinishRead(s.xfer)), c, b, more), b)
  {
  }

  /** An accepted read is carried, offered to the callback and counted. */
  lemma ReadGoes(s: Ftp, n: nat, more: bool)
    requires Inv(s) && InTransfer(s) && Possible(s, FileChunk(n, more)) && s.xfer.dataChannel.Some?
    requires !Refused(s, s.ctl.q[0])
    ensures var r, c, b := Step(s, FileChunk(n, more)), s.ctl.q[0], Pending(s.xfer, n);
            && r.talk.carried == s.talk.carried + b
            && r.talk.callbacks
               == s.talk.callbacks + (if c.tcbk.Some? then [Chunk(c.tcbk.value, b)] else [])
            && r.xfer.fileDevice.Some? && r.xfer.offset == s.xfer.offset + |b| && r.xfer.dataChannel.Some?
            && r.xfer.dataChannel.value.out == s.xfer.dataChannel.value.out + b
  {
    ReadMoves(s, n, more);
  }

  /** What an accepted read adds to what has been carried. */
  lemma ReadCarries(s: Ftp, o: Origin, es: seq<Event>, e: Event)
    requires Inv(s) && Uploading(s, o, es) && e.FileChunk? && Possible(s, e) && !Refused(s, o.front)
    requires s.xfer.dataChannel.Some?
    ensures Carried(Step(s, e), o, es + [e])
  {
    var x, b := s.xfer, Pending(s.xfer, e.length);
    CountOne(HasCallback(o), es, e);
    ReadOne(HasCallback(o), es, e);
    ReadGoes(s, e.length, e.more);
    assert |b| == e.length && o.base[..x.offset] + b == o.base[..x.offset + e.length];
    Regroup(o.carried, o.base[..x.offset], b);
    if HasCallback(o) {
      GivenOne(s.talk.callbacks, Chunk(o.front.tcbk.value, b));
      Regroup(o.given, o.base[..x.offset], b);
    }
  }

  lemma AcceptedReadUploads(s: Ftp, o: Origin, es: seq<Event>, e: Event)
    requires Inv(s) && Uploading(s, o, es) && e.FileChunk? && Possible(s, e) && !Refused(s, o.front)
    requires s.xfer.dataChannel.Some? && Going(Step(s, e), o, es + [e])
    ensures Uploading(Step(s, e), o, es + [e])
  {
    ReadCarries(s, o, es, e);
    CountOne(HasCallback(o), es, e);
    ReadOne(HasCallback(o), es, e);
    ReadMoves(s, e.length, e.more);
  }

  lemma RefusedReadUploads(s: Ftp, o: Origin, es: seq<Event>, e: Event)
    requires Inv(s) && Uploading(s, o, es) && e.FileChunk? && Possible(s, e) && Refused(s, o.front)
    requires s.xfer.dataChannel.Some? && Going(Step(s, e), o, es + [e])
    ensures Uploading(Step(s, e), o, es + [e])
  {
    CountOne(HasCallback(o), es, e);
    ReadOne(HasCallback(o), es, e);
    ReadMoves(s, e.length, e.more);
  }

  /** Data from the server after a refusal only shuts the channel down. */
  lemma RefusedChunkUploads(s: Ftp, o: Origin, es: seq<Event>, e: Event)
    requires Inv(s) && Uploading(s, o, es) && e.DataChunk? && Possible(s, e) && Refused(s, o.front)
    requires Going(Step(s, e), o, es + [e])
    ensures Uploading(Step(s, e), o, es + [e])
  {
    CountOne(HasCallback(o), es, e);
    ReadOne(HasCallback(o), es, e);
    assert Step(s, e) == StopChannel(s);
  }

  /**
   Data from the server otherwise is written into the local file and moves the offset, past what the channel has
   carried.
   */
  lemma ServerDataDisturbs(s: Ftp, o: Origin, es: seq<Event>, e: Event)
    requires Inv(s) && Uploading(s, o, es) && e.DataChunk? && Possible(s, e) && !Refused(s, o.front)
    ensures var x := Step(s, e).xfer;
            x.dataChannel.Some? && x.fileDevice.Some? && x.offset > |x.dataChannel.value.out|
  {
    var s1 := ChunkTo(s, o.front, e.data, e.more);
    assert s1.xfer.fileDevice == s.xfer.fileDevice && s1.xfer.offset == s.xfer.offset;
  }

  /** Events that neither move data nor end the transfer leave what an upload is about alone. */
  lemma UploadLeaves(s: Ftp, e: Event)
    requires Inv(s) && InTransfer(s) && s.ctl.state != Data && s.ctl.q[0].verb == STOR && Possible(s, e)
    requires !IsChunk(e) && !e.FileEnd? && !e.DataHandshake?
    ensures var r := Step(s, e);
            && r.xfer.disk == s.xfer.disk && r.talk.carried == s.talk.carried
            && Given(r.talk.callbacks) == Given(s.talk.callbacks)
            && (NextStage(StageIn(s.ctl.state), e) != Broken && r.xfer.dataChannel.Some? ==> r.xfer == s.xfer)
  {
    match e
    case Reply(msg) => ReplyLeaves(s, msg);
    case DataClosed => CloseLeaves(s);
    case Api(call) => SoundCall(s, call);
    case _ =>
  }

  lemma PumpUploads(s: Ftp, o: Origin, es: seq<Event>, e: Event)
    requires Inv(s) && Uploading(s, o, es) && Possible(s, e) && (e.FileEnd? || e.DataHandshake?)
    requires Going(Step(s, e), o, es + [e])
    ensures Uploading(Step(s, e), o, es + [e])
  {
    CountOne(HasCallback(o), es, e);
    ReadOne(HasCallback(o), es, e);
  }

  lemma OtherUploads(s: Ftp, o: Origin, es: seq<Event>, e: Event)
    requires Inv(s) && Uploading(s, o, es) && Possible(s, e) && !IsChunk(e) && StillGoing(o, es + [e])
    requires Going(Step(s, e), o, es + [e])
    ensures Uploading(Step(s, e), o, es + [e])
  {
    if e.FileEnd? || e.DataHandshake? {
      PumpUploads(s, o, es, e);
    } else {
      StageOne(Begun, es, e);
      CountOne(HasCallback(o), es, e);
      ReadOne(HasCallback(o), es, e);
      UploadLeaves(s, e);
    }
  }

  /** While the channel is open, the offset is past what it has carried. */
  predicate Lags(s: Ftp) {
    s.xfer.dataChannel.Some? ==> s.xfer.fileDevice.Some? && s.xfer.offset > |s.xfer.dataChannel.value.out|
  }

  lemma ReadLags(s: Ftp, e: Event)
    requires Inv(s) && InTransfer(s) && e.FileChunk? && Possible(s, e) && Lags(s)
    ensures Lags(Step(s, e))
  {
    if s.xfer.dataChannel.Some? {
      ReadMoves(s, e.length, e.more);
    }
  }

  lemma PumpLags(s: Ftp, e: Event)
    requires Inv(s) && InTransfer(s) && (e.DataChunk? || e.FileEnd? || e.DataHandshake?) && Possible(s, e) && Lags(s)
    ensures Lags(Step(s, e))
  {
  }

  lemma LagStays(s: Ftp, o: Origin, es: seq<Event>, e: Event)
    requires Inv(s) && Going(s, o, es) && o.front.verb == STOR && Lags(s) && Possible(s, e) && StillGoing(o, es + [e])
    ensures Lags(Step(s, e))
  {
    if e.FileChunk? {
      ReadLags(s, e);
    } else if e.DataChunk? || e.FileEnd? || e.DataHandshake? {
      PumpLags(s, e);
    } else {
      StageOne(Begun, es, e);
      UploadLeaves(s, e);
    }
  }

  /**
   An upload stays one that carries its file if and only if the event is not data from the server to a willing
   callback.
   */
  lemma StepUploadsIff(s: Ftp, o: Origin, es: seq<Event>, e: Event)
    requires Inv(s) && Uploading(s, o, es) && StillGoing(o, es) && Possible(s, e) && Orderly(s, e)
    requires StillGoing(o, es + [e])
    ensures Uploading(Step(s, e), o, es + [e]) <==> !Disturbs(o, es, e)
    ensures Disturbs(o, es, e) ==> Lags(Step(s, e))
  {
    GoesOn(s, o, es, e);
    if e.DataChunk? {
      if Refused(s, o.front) {
        RefusedChunkUploads(s, o, es, e);
      } else {
        ServerDataDisturbs(s, o, es, e);
      }
    } else if e.FileChunk? {
      if Refused(s, o.front) {
        RefusedReadUploads(s, o, es, e);
      } else {
        AcceptedReadUploads(s, o, es, e);
      }
    } else {
      OtherUploads(s, o, es, e);
    }
  }

  lemma StartsUpload(s: Ftp, msg: seq<byte>)
    requires Inv(s) && s.ctl.inProgress && s.ctl.state == Data && Code(msg) == '1' && s.ctl.q[0].verb == STOR
    requires Orderly(s, Reply(msg))
    ensures Inv(OnReply(s, msg)) && Uploading(OnReply(s, msg), OriginOf(s), [])
  {
    ReplyKeeps(s, msg);
    assert CmdOk(s.ctl.q[0]);
    Opens(s, msg);
  }

  /**
   As far as the run has come: all is carried if the server was quiet, and the offset is ahead for good if it was not.
   */
  predicate UploadStands(s: Ftp, o: Origin, es: seq<Event>) {
    && Going(s, o, es) && o.front.verb == STOR
    && (if QuietServer(o, es) then Uploading(s, o, es) else Lags(s))
  }

  lemma UploadOne(r: Ftp, o: Origin, es: seq<Event>, e: Event)
    requires Inv(r) && UploadStands(r, o, es) && Possible(r, e) && Orderly(r, e) && StillGoing(o, es)
    requires StillGoing(o, es + [e])
    ensures Inv(Step(r, e)) && UploadStands(Step(r, e), o, es + [e])
  {
    StepKeeps(r, e);
    GoesOn(r, o, es, e);
    assert (es + [e])[..|es|] == es;
    if QuietServer(o, es) {
      StepUploadsIff(r, o, es, e);
    } else {
      LagStays(r, o, es, e);
    }
  }

  /**
   Over any run of an upload from its preliminary reply on: what was read of the file has been carried and given to the
   callback, one read is pending until the reads are over, the channel is shut down exactly by the end of the file or a
   chunk after a refused one, and all of the file has been carried at its end; as long as the channel is open, if and
   only if the server has sent no data to a willing callback.
   */
  lemma {:induction false} UploadContent(s: Ftp, msg: seq<byte>, es: seq<Event>)
    requires Inv(s) && s.ctl.inProgress && s.ctl.state == Data && Code(msg) == '1' && s.ctl.q[0].verb == STOR
    requires Orderly(s, Reply(msg)) && OrderlyRun(OnReply(s, msg), es) && StillGoing(OriginOf(s), es)
    ensures var r, o := Run(OnReply(s, msg), es), OriginOf(s);
            && Inv(r) && UploadStands(r, o, es)
            && (r.xfer.dataChannel.Some? ==> (Uploading(r, o, es) <==> QuietServer(o, es)))
    decreases |es|
  {
    if es == [] {
      StartsUpload(s, msg);
    } else {
      var before, e := es[..|es| - 1], es[|es| - 1];
      GoingBefore(OriginOf(s), es);
      UploadContent(s, msg, before);
      SplitLast(es);
      UploadOne(Run(OnReply(s, msg), before), OriginOf(s), before, e);
    }
  }

  /** The event that retires the upload carries nothing more. */
  lemma LastUploads(s: Ftp, o: Origin, es: seq<Event>, e: Event)
    requires Inv(s) && Uploading(s, o, es) && StillGoing(o, es) && Possible(s, e) && Orderly(s, e)
    requires !StillGoing(o, es + [e])
    ensures Ended(Step(s, e), o.log, o.front) && Carried(Step(s, e), o, es + [e])
    ensures Content(Step(s, e).xfer, o.front.local) == o.base
  {
    GoesOn(s, o, es, e);
    StageOne(Begun, es, e);
    CountOne(HasCallback(o), es, e);
    ReadOne(HasCallback(o), es, e);
    UploadLeaves(s, e);
  }

  /**
   An upload from its preliminary reply to the event that retires it, whichever it is: unless the server has sent data
   to a willing callback, the channel has carried exactly what was read of the file, and all of it if its end was
   seen; the callback was given the same; and the local file is as it was.
   */
  lemma UploadRetired(s: Ftp, msg: seq<byte>, es: seq<Event>)
    requires Inv(s) && s.ctl.inProgress && s.ctl.state == Data && Code(msg) == '1' && s.ctl.q[0].verb == STOR
    requires Orderly(s, Reply(msg)) && OrderlyRun(OnReply(s, msg), es)
    requires es != [] && StillGoing(OriginOf(s), es[..|es| - 1]) && !StillGoing(OriginOf(s), es)
    requires QuietServer(OriginOf(s), es)
    ensures var r, o := Run(OnReply(s, msg), es), OriginOf(s);
            Ended(r, s.log, s.ctl.q[0]) && Carried(r, o, es) && Content(r.xfer, s.ctl.q[0].local) == o.base
  {
    var before, e := es[..|es| - 1], es[|es| - 1];
    UploadContent(s, msg, before);
    SplitLast(es);
    LastUploads(Run(OnReply(s, msg), before), OriginOf(s), before, e);
  }
}
