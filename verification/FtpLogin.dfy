/**
 When the queue starts to move; three runs on which the engine goes wrong: a server that logs the user in without
 asking for a password, a data channel closed before the preliminary reply, and a reply of class 1 to PASV; and one
 that goes well.
 */
module FtpLogin {
  import opened Wrappers
  import opened Bytes
  import opened FtpAddress
  import opened FtpModel
  import opened FtpInvariant
  import opened FtpDrain
  import opened FtpLeftover

  /** The reply decides the login. */
  predicate Decides(s: Ftp, e: Event) {
    e.Reply? && s.ctl.state == Pass && Code(e.msg) in {'1', '2', '4', '5'}
  }

  /** Some reply of the run decided the login. */
  predicate Decided(s: Ftp, es: seq<Event>)
    decreases |es|
  {
    es != [] &&
      var before := es[..|es| - 1];
      Decided(s, before) || Decides(Run(s, before), es[|es| - 1])
  }

  lemma ReplyEntersSession(s: Ftp, msg: seq<byte>)
    requires Sound(s) && !InSession(s)
    ensures InSession(OnReply(s, msg)) <==> Decides(s, Reply(msg))
  {
    var code := Code(msg);
    if Rule(s.ctl.state, code).None? {
      IgnoredReply(s, msg);
    } else if s.ctl.state == Pass && code != '3' {
      LoginReply(s, msg);
    }
  }

  lemma StepEntersSession(s: Ftp, e: Event)
    requires Sound(s) && !InSession(s) && Possible(s, e) && !Step(s, e).fault
    ensures InSession(Step(s, e)) <==> Decides(s, e)
  {
    if e.Reply? {
      ReplyEntersSession(s, e.msg);
    }
  }

  lemma StepStaysInSession(s: Ftp, e: Event)
    requires Sound(s) && InSession(s) && Possible(s, e) && !Step(s, e).fault
    ensures InSession(Step(s, e))
  {
    if !e.Api? {
      StepLeft(s, e);
    }
  }

  /**
   Over every run that has not faulted: commands start to move if and only if PASS has been answered, with 1, 2, 4 or
   5.
   */
  lemma {:induction false} SessionIffPassAnswered(config: Config, disk: map<string, seq<byte>>, es: seq<Event>)
    requires LiveRun(Init(config, disk), es)
    ensures var s := Run(Init(config, disk), es);
            Sound(s) && (InSession(s) <==> Decided(Init(config, disk), es))
    decreases |es|
  {
    if es != [] {
      var before, e := es[..|es| - 1], es[|es| - 1];
      var s := Run(Init(config, disk), before);
      SessionIffPassAnswered(config, disk, before);
      StepSound(s, e);
      if InSession(s) {
        StepStaysInSession(s, e);
      } else {
        StepEntersSession(s, e);
      }
    }
  }

  /**
   Ready with the flag still set, which a reply of class 2 to USER leads to, is a dead end: no run ever sends a
   command.
   */
  lemma {:induction false} LoginWithoutPasswordStalls(s: Ftp, es: seq<Event>)
    requires Sound(s) && s.ctl.inProgress && s.ctl.state == Ready && LiveRun(s, es)
    ensures var r := Run(s, es);
            r.ctl.inProgress && r.ctl.state == Ready && r.log.sent == s.log.sent && r.log.gone == s.log.gone
    decreases |es|
  {
    if es != [] {
      LoginWithoutPasswordStalls(s, es[..|es| - 1]);
      RunSound(s, es[..|es| - 1]);
    }
  }

  lemma UserAcceptedLeadsThere(s: Ftp, msg: seq<byte>)
    requires Sound(s) && s.ctl.inProgress && s.ctl.state == User && Code(msg) == '2'
    ensures OnReply(s, msg) == To(s, Ready)
  {
  }

  // -------- Runs that end in a fault --------

  const FETCH: Event := Api(Download(None, "r", "l", Clear))

  /** PASV accepted, for any state that waits for it. */
  lemma PassiveOpens(s: Ftp)
    requires !s.fault && s.ctl == Control(Pasv, [PASV_CMD, RETRIEVAL], true)
    ensures Orderly(s, Reply(PASSIVE))
    ensures var r := Step(s, Reply(PASSIVE));
            && !r.fault && r.ctl == Control(Data, [RETRIEVAL], true) && r.config == s.config && r.dcProt == s.dcProt
            && r.xfer == s.xfer.(dataChannel := Some(Channel(PEER, [], false, false)))
  {
    PassiveHasAddress();
    PasvAccepted(s, PASSIVE);
  }

  lemma PossibleOne(s: Ftp, es: seq<Event>, e: Event, r: Ftp)
    requires PossibleRun(s, es) && Run(s, es) == r && Possible(r, e)
    ensures PossibleRun(s, es + [e]) && Run(s, es + [e]) == Step(r, e)
  {
    RunAppend(s, es, e);
  }

  lemma OrderlyOne(s: Ftp, es: seq<Event>, e: Event, r: Ftp)
    requires OrderlyRun(s, es) && Run(s, es) == r && Possible(r, e) && Orderly(r, e)
    ensures OrderlyRun(s, es + [e]) && Run(s, es + [e]) == Step(r, e)
  {
    RunAppend(s, es, e);
    assert (es + [e])[..|es|] == es;
  }

  lemma {:induction false} OrderlyIsPossible(s: Ftp, es: seq<Event>)
    requires OrderlyRun(s, es)
    ensures PossibleRun(s, es)
    decreases |es|
  {
    if es != [] {
      OrderlyIsPossible(s, es[..|es| - 1]);
    }
  }

  /** A download queued before the connection, up to USER. */
  const TO_USER: seq<Event> := [] + [FETCH] + [Connect] + [Reply(TWO)]

  /** The login, and PASV sent. */
  const TO_PASV: seq<Event> := TO_USER + [Reply(THREE)] + [Reply(TWO)]

  const PLAIN_LOGIN := Config(No, "u", "p", true, None)

  const RETRIEVAL := Cmd(RETR, "r", "l", NoResponse, None)

  /** Nothing but the control state and the logs has moved. */
  predicate Untouched(s: Ftp) {
    !s.fault && s.config == PLAIN_LOGIN && s.dcProt == Clear && s.xfer == Transfer(None, None, false, 0, map[])
  }

  lemma ReachesUser()
    ensures var s := Run(Init(PLAIN_LOGIN, map[]), TO_USER);
            OrderlyRun(Init(PLAIN_LOGIN, map[]), TO_USER)
            && Untouched(s) && s.ctl == Control(User, [PASV_CMD, RETRIEVAL], true)
  {
    var s0 := Init(PLAIN_LOGIN, map[]);
    var s1 := Step(s0, FETCH);
    OrderlyOne(s0, [], FETCH, s0);
    assert Commands(No, FETCH.call) == [PASV_CMD, RETRIEVAL];
    assert s1.ctl == Control(Connecting, [PASV_CMD, RETRIEVAL], true);
    OrderlyOne(s0, [] + [FETCH], Connect, s1);
    OrderlyOne(s0, [] + [FETCH] + [Connect], Reply(TWO), Step(s1, Connect));
  }

  /** The password accepted: PASV goes out. */
  lemma PassAccepted(s: Ftp)
    requires Untouched(s) && s.ctl == Control(Pass, [PASV_CMD, RETRIEVAL], true)
    ensures Untouched(OnReply(s, TWO)) && OnReply(s, TWO).ctl == Control(Pasv, [PASV_CMD, RETRIEVAL], true)
  {
    LoginReply(s, TWO);
  }

  lemma ReachesPasv()
    ensures var s := Run(Init(PLAIN_LOGIN, map[]), TO_PASV);
            OrderlyRun(Init(PLAIN_LOGIN, map[]), TO_PASV)
            && Untouched(s) && s.ctl == Control(Pasv, [PASV_CMD, RETRIEVAL], true)
  {
    var s0, s := Init(PLAIN_LOGIN, map[]), Run(Init(PLAIN_LOGIN, map[]), TO_USER);
    ReachesUser();
    OrderlyOne(s0, TO_USER, Reply(THREE), s);
    var s1 := Step(s, Reply(THREE));
    assert s1.ctl == Control(Pass, [PASV_CMD, RETRIEVAL], true) && Untouched(s1);
    OrderlyOne(s0, TO_USER + [Reply(THREE)], Reply(TWO), s1);
    PassAccepted(s1);
  }

  lemma EmptyQueueFaults(s: Ftp, msg: seq<byte>)
    requires !s.fault && s.ctl.state == Data && Code(msg) == '1' && s.ctl.q == []
    ensures OnReply(s, msg).fault
  {
  }

  /**
   PASV answered with class 1 empties the queue but leaves the state DATA; the next reply takes the front of an empty
   queue.
   */
  lemma PreliminaryPasvFaults()
    ensures var es := TO_PASV + [Reply(ONE)] + [Reply(ONE)];
            PossibleRun(Init(PLAIN_LOGIN, map[]), es) && Run(Init(PLAIN_LOGIN, map[]), es).fault
  {
    var s0, s := Init(PLAIN_LOGIN, map[]), Run(Init(PLAIN_LOGIN, map[]), TO_PASV);
    ReachesPasv();
    OrderlyIsPossible(s0, TO_PASV);
    PossibleOne(s0, TO_PASV, Reply(ONE), s);
    var s1 := Step(s, Reply(ONE));
    PasvSkipped(s, ONE);
    assert s1.ctl == Control(Data, [], false);
    PossibleOne(s0, TO_PASV + [Reply(ONE)], Reply(ONE), s1);
    EmptyQueueFaults(s1, ONE);
  }

  /** With a queue that PASV and its transfer empty: class 1 alone leaves a state in which a further reply faults. */
  lemma PasvSkipFaultsNextIff(s: Ftp, msg: seq<byte>, next: seq<byte>)
    requires Sound(s) && s.ctl.inProgress && s.ctl.state == Pasv && |s.ctl.q| == 2 && Code(msg) in {'1', '4', '5'}
    ensures !OnReply(s, msg).fault
    ensures OnReply(OnReply(s, msg), next).fault <==> Code(msg) == '1' && Code(next) in {'1', '4', '5'}
  {
    SoundPasv(s, msg);
    PasvSkipped(s, msg);
    ReplyFaultsIff(OnReply(s, msg), next);
  }

  /** The preliminary reply to a file transfer with a file device still open fails the assertion. */
  lemma StaleFileFaults(s: Ftp, msg: seq<byte>)
    requires !s.fault && s.ctl.state == Data && Code(msg) == '1' && s.ctl.q != [] && s.ctl.q[0].local != ""
    requires s.xfer.fileDevice.Some?
    ensures OnReply(s, msg).fault
  {
  }

  const EARLY_CLOSE: seq<Event> := TO_PASV + [Reply(PASSIVE)] + [DataClosed] + [Reply(ONE)] + [Reply(TWO)]

  /** The state after that run. */
  lemma LeftoverState(s: Ftp)
    requires !s.fault && s.ctl == Control(Data, [RETRIEVAL], true) && s.dcProt == Clear && s.xfer.dataChannel.Some?
    ensures var r := Step(Step(Step(s, DataClosed), Reply(ONE)), Reply(TWO));
            r.ctl == Control(Final, [], false) && r.config == s.config && r.dcProt == Clear
  {
    var s1 := Step(s, DataClosed);
    assert !s1.fault && s1.ctl == s.ctl && s1.xfer.dataChannel.None? && s1.xfer.fileDevice.None?;
    PreliminaryReply(s1, ONE);
    var s2 := Step(s1, Reply(ONE));
    assert s2.ctl == Control(Mark, [RETRIEVAL], true) && s2.xfer.dataChannel.None?;
    CompletionReply(s2, TWO);
  }

  lemma ReachesLeftoverFile()
    ensures var r := Run(Init(PLAIN_LOGIN, map[]), EARLY_CLOSE);
            && PossibleRun(Init(PLAIN_LOGIN, map[]), EARLY_CLOSE)
            && r.ctl == Control(Final, [], false) && r.xfer.fileDevice.Some? && !r.fault && r.config == PLAIN_LOGIN
  {
    var s0, s := Init(PLAIN_LOGIN, map[]), Run(Init(PLAIN_LOGIN, map[]), TO_PASV);
    ReachesPasv();
    OrderlyIsPossible(s0, TO_PASV);
    PossibleOne(s0, TO_PASV, Reply(PASSIVE), s);
    PassiveOpens(s);
    var s1 := Step(s, Reply(PASSIVE));
    RunKeeps(s0, TO_PASV);
    StepKeeps(s, Reply(PASSIVE));
    EarlyCloseLeavesFileIff(s1, ONE, TWO);
    LeftoverState(s1);
    PossibleOne(s0, TO_PASV + [Reply(PASSIVE)], DataClosed, s1);
    PossibleOne(s0, TO_PASV + [Reply(PASSIVE)] + [DataClosed], Reply(ONE), Step(s1, DataClosed));
    PossibleOne(s0, TO_PASV + [Reply(PASSIVE)] + [DataClosed] + [Reply(ONE)],
                Reply(TWO), Step(Step(s1, DataClosed), Reply(ONE)));
  }

  /** So the next download on the same connection faults at its preliminary reply. */
  lemma NextDownloadFaults()
    ensures var es := EARLY_CLOSE + [FETCH] + [Reply(PASSIVE)] + [Reply(ONE)];
            PossibleRun(Init(PLAIN_LOGIN, map[]), es) && Run(Init(PLAIN_LOGIN, map[]), es).fault
  {
    var s0, s := Init(PLAIN_LOGIN, map[]), Run(Init(PLAIN_LOGIN, map[]), EARLY_CLOSE);
    ReachesLeftoverFile();
    PossibleOne(s0, EARLY_CLOSE, FETCH, s);
    var s1 := Step(s, FETCH);
    assert Commands(No, FETCH.call) == [PASV_CMD, RETRIEVAL];
    assert s1.ctl == Control(Pasv, [PASV_CMD, RETRIEVAL], true);
    PossibleOne(s0, EARLY_CLOSE + [FETCH], Reply(PASSIVE), s1);
    PassiveOpens(s1);
    var s2 := Step(s1, Reply(PASSIVE));
    PossibleOne(s0, EARLY_CLOSE + [FETCH] + [Reply(PASSIVE)], Reply(ONE), s2);
    StaleFileFaults(s2, ONE);
  }

  // -------- A run on which all goes well --------

  const CHUNK: Event := DataChunk([7], true)

  const WHOLE_DOWNLOAD: seq<Event> :=
    TO_PASV + [Reply(PASSIVE)] + [Reply(ONE)] + [CHUNK] + [DataClosed] + [Reply(TWO)]

  lemma RetrievalBegins(s: Ftp, c: Channel)
    requires !s.fault && s.ctl == Control(Data, [RETRIEVAL], true) && s.config == PLAIN_LOGIN && s.dcProt == Clear
    requires s.xfer == Transfer(Some(c), None, false, 0, map[])
    ensures Orderly(s, Reply(ONE))
    ensures var r := Step(s, Reply(ONE));
            && !r.fault && r.ctl == Control(Mark, [RETRIEVAL], true)
            && r.xfer == Transfer(Some(c), Some(FileDevice("l", 0)), true, 0, map["l" := []])
  {
    PreliminaryReply(s, ONE);
  }

  /** PASV accepted and the transfer begun. */
  lemma ReachesMark()
    ensures var es, c := TO_PASV + [Reply(PASSIVE)] + [Reply(ONE)], Channel(PEER, [], false, false);
            && OrderlyRun(Init(PLAIN_LOGIN, map[]), es)
            && Run(Init(PLAIN_LOGIN, map[]), es).ctl == Control(Mark, [RETRIEVAL], true)
            && !Run(Init(PLAIN_LOGIN, map[]), es).fault
            && Run(Init(PLAIN_LOGIN, map[]), es).xfer
               == Transfer(Some(c), Some(FileDevice("l", 0)), true, 0, map["l" := []])
  {
    var s0, s := Init(PLAIN_LOGIN, map[]), Run(Init(PLAIN_LOGIN, map[]), TO_PASV);
    ReachesPasv();
    PassiveOpens(s);
    OrderlyOne(s0, TO_PASV, Reply(PASSIVE), s);
    var s1 := Step(s, Reply(PASSIVE));
    RetrievalBegins(s1, Channel(PEER, [], false, false));
    OrderlyOne(s0, TO_PASV + [Reply(PASSIVE)], Reply(ONE), s1);
  }

  lemma DownloadsOne(s: Ftp)
    requires !s.fault && s.ctl == Control(Mark, [RETRIEVAL], true)
    requires s.xfer
             == Transfer(Some(Channel(PEER, [], false, false)), Some(FileDevice("l", 0)), true, 0, map["l" := []])
    ensures var r := Step(Step(s, CHUNK), DataClosed);
            && !Step(s, CHUNK).fault && Step(s, CHUNK).ctl == s.ctl && Step(s, CHUNK).xfer.dataChannel.Some?
            && !r.fault && r.ctl == s.ctl && r.xfer == Transfer(None, None, true, 1, map["l" := [7]])
  {
    assert WriteAt([], 0, [7]) == [7];
  }

  /** The hypotheses about orderly runs can be met: a login and a download that puts one byte into the local file. */
  lemma DownloadSucceeds()
    ensures var r := Run(Init(PLAIN_LOGIN, map[]), WHOLE_DOWNLOAD);
            && OrderlyRun(Init(PLAIN_LOGIN, map[]), WHOLE_DOWNLOAD)
            && !r.fault && r.ctl == Control(Final, [], false)
            && r.xfer == Transfer(None, None, true, 1, map["l" := [7]])
  {
    var s0, es := Init(PLAIN_LOGIN, map[]), TO_PASV + [Reply(PASSIVE)] + [Reply(ONE)];
    var s := Run(s0, es);
    ReachesMark();
    DownloadsOne(s);
    OrderlyOne(s0, es, CHUNK, s);
    OrderlyOne(s0, es + [CHUNK], DataClosed, Step(s, CHUNK));
    var r := Step(Step(s, CHUNK), DataClosed);
    OrderlyOne(s0, es + [CHUNK] + [DataClosed], Reply(TWO), r);
    CompletionReply(r, TWO);
  }
}
