/**
 The engine against a server that keeps to section 5.4 of RFC 959: one final reply to each command, and to a transfer
 a refusal, or a preliminary reply, one final reply and the close of the data connection. When such a dialogue is
 finished the queue has drained, unless a transfer was refused with class 5 after its preliminary reply.
 */
module FtpServer {
  import opened Wrappers
  import opened Bytes
  import opened FtpAddress
  import opened FtpModel
  import opened FtpInvariant
  import opened FtpJoin
  import opened FtpDrain

  /** What the server owes: nothing, an answer to the last command, or the final reply to a transfer it has begun. */
  datatype Duty = Nothing | Answer(verb: Verb) | Finish

  predicate MayReply(d: Duty, msg: seq<byte>) {
    match d
    case Nothing => false
    case Answer(v) =>
      if v == PASV then Code(msg) in {'4', '5'} || (Code(msg) == '2' && HasAddress(msg))
      else if IsTransfer(v) then Code(msg) in {'1', '4', '5'}
      else Code(msg) in {'2', '4', '5'}
    case Finish => Code(msg) in {'2', '4', '5'}
  }

  /** The server sends the reply only if it owes it. It may close the data connection whenever it likes. */
  predicate Proper(d: Duty, e: Event) {
    e.Reply? ==> MayReply(d, e.msg)
  }

  /** The refusals of section 5.4 that come after a preliminary reply, such as 551 and 552. */
  predicate IsLate(d: Duty, e: Event) {
    e.Reply? && d == Finish && Code(e.msg) == '5'
  }

  function AfterReply(d: Duty, e: Event): Duty {
    if !e.Reply? then d
    else if d.Answer? && IsTransfer(d.verb) && Code(e.msg) == '1' then Finish
    else Duty.Nothing
  }

  /** A command that reaches the server is owed an answer. */
  function NextDuty(d: Duty, s: Ftp, e: Event): Duty {
    var was, now := s.log.sent, Step(s, e).log.sent;
    if |now| > |was| then Answer(now[|now| - 1].verb) else AfterReply(d, e)
  }

  function DutyIn(s: Ftp): Duty {
    if !s.ctl.inProgress || s.ctl.q == [] then Duty.Nothing
    else
      match s.ctl.state
      case Mark => Finish
      case Final => Duty.Nothing
      case _ => Answer(s.ctl.q[0].verb)
  }

  function DutyAfter(s: Ftp, es: seq<Event>): Duty
    decreases |es|
  {
    if es == [] then DutyIn(s)
    else
      var before := es[..|es| - 1];
      NextDuty(DutyAfter(s, before), Run(s, before), es[|es| - 1])
  }

  predicate ProperRun(s: Ftp, es: seq<Event>)
    decreases |es|
  {
    es != [] ==>
      var before := es[..|es| - 1];
      ProperRun(s, before) && Proper(DutyAfter(s, before), es[|es| - 1])
  }

  /** Some transfer was refused after its preliminary reply. */
  predicate LateRefusal(s: Ftp, es: seq<Event>)
    decreases |es|
  {
    es != [] &&
      var before := es[..|es| - 1];
      LateRefusal(s, before) || IsLate(DutyAfter(s, before), es[|es| - 1])
  }

  /** Engine and server agree on what is owed; after a late refusal the engine waits for a reply that nobody owes. */
  predicate Agree(s: Ftp, d: Duty, late: bool) {
    if late then s.ctl.inProgress && s.ctl.state == Mark && d == Duty.Nothing
    else InSession(s) && d == DutyIn(s)
  }

  // -------- Steps --------

  /** The next command goes out, and is what the server owes an answer to. */
  lemma NextAgrees(s: Ftp, sent: seq<Cmd>)
    requires !s.ctl.inProgress && s.log.sent == sent
    ensures var r := ProcessNextCmd(s);
            && InSession(r)
            && (if s.ctl.q == [] then r == s && DutyIn(r) == Duty.Nothing
                else r.log.sent == sent + [s.ctl.q[0]] && DutyIn(r) == Answer(s.ctl.q[0].verb))
  {
  }

  lemma SkipAgrees(s: Ftp, n: nat, r: Ftp, d: Duty, e: Event, was: Ftp)
    requires n <= |s.ctl.q| && r == SkipCommand(s, n) && r == Step(was, e) && was.log.sent == s.log.sent
    requires AfterReply(d, e) == Duty.Nothing
    ensures InSession(r) && NextDuty(d, was, e) == DutyIn(r)
  {
    NextAgrees(Pop(s, n), s.log.sent);
  }

  lemma GenAgrees(s: Ftp, msg: seq<byte>)
    requires Sound(s) && s.ctl.inProgress && s.ctl.state == Gen && MayReply(DutyIn(s), msg)
    ensures InSession(OnReply(s, msg)) && NextDuty(DutyIn(s), s, Reply(msg)) == DutyIn(OnReply(s, msg))
  {
    GenReply(s, msg);
    SkipAgrees(NoteAnswer(RunResponse(To(s, Ready), s.ctl.q[0], msg), msg), 1,
               OnReply(s, msg), DutyIn(s), Reply(msg), s);
  }

  lemma PasvAgrees(s: Ftp, msg: seq<byte>)
    requires Sound(s) && s.ctl.inProgress && s.ctl.state == Pasv && MayReply(DutyIn(s), msg)
    ensures InSession(OnReply(s, msg)) && NextDuty(DutyIn(s), s, Reply(msg)) == DutyIn(OnReply(s, msg))
  {
    if Code(msg) == '2' {
      PasvAccepted(s, msg);
      NextAgrees(Pop(To(s, Data), 1), s.log.sent);
      var s1 := SkipCommand(To(s, Data), 1);
      assert OnReply(s, msg).ctl == s1.ctl && OnReply(s, msg).log == s1.log;
    } else {
      PasvSkipped(s, msg);
      SkipAgrees(To(s, Ready), 2, OnReply(s, msg), DutyIn(s), Reply(msg), s);
    }
  }

  lemma TransferAgrees(s: Ftp, msg: seq<byte>)
    requires Sound(s) && s.ctl.inProgress && s.ctl.state in {Data, Mark} && MayReply(DutyIn(s), msg)
    requires !IsLate(DutyIn(s), Reply(msg))
    ensures InSession(OnReply(s, msg)) && NextDuty(DutyIn(s), s, Reply(msg)) == DutyIn(OnReply(s, msg))
  {
    if Code(msg) == '1' {
      BeginFrame(s, msg);
    } else if Code(msg) == '2' {
      CompletionReply(s, msg);
      if s.xfer.dataChannel.None? {
        SkipAgrees(To(s, Final), 1, OnReply(s, msg), DutyIn(s), Reply(msg), s);
      }
    } else {
      BreakOffReply(s, msg);
      SkipAgrees(ResetDevices(To(s, Final)), 1, OnReply(s, msg), DutyIn(s), Reply(msg), s);
    }
  }

  /** A late refusal is ignored. */
  lemma LateIsIgnored(s: Ftp, msg: seq<byte>)
    requires Sound(s) && s.ctl.inProgress && s.ctl.state == Mark && Code(msg) == '5'
    ensures OnReply(s, msg) == s
  {
    IgnoredReply(s, msg);
  }

  lemma CallAgrees(s: Ftp, call: Call)
    requires Sound(s) && InSession(s) && ValidCall(call)
    ensures InSession(OnCall(s, call)) && NextDuty(DutyIn(s), s, Api(call)) == DutyIn(OnCall(s, call))
  {
    CommandsNotEmpty(s.config.tls, call);
    var s1 := Append(s, call);
    assert s1.ctl.q != [] && s1.log.sent == s.log.sent
           && s1.ctl.inProgress == s.ctl.inProgress && s1.ctl.state == s.ctl.state;
    if s.ctl.inProgress {
      assert s1.ctl.q[0] == s.ctl.q[0];
    } else {
      NextAgrees(s1, s.log.sent);
    }
  }

  lemma CloseAgrees(s: Ftp)
    requires Sound(s) && s.xfer.dataChannel.Some?
    ensures InSession(OnDataChannelDisconnect(s))
    ensures NextDuty(DutyIn(s), s, DataClosed) == DutyIn(OnDataChannelDisconnect(s))
  {
    if s.ctl.state == Final {
      SkipAgrees(ResetDevices(NotifyEnd(s, s.ctl.q[0])), 1, OnDataChannelDisconnect(s), DutyIn(s), DataClosed, s);
    }
  }

  lemma DeviceAgrees(s: Ftp, e: Event)
    requires Sound(s) && InSession(s) && Possible(s, e) && !Step(s, e).fault && !e.Api? && !e.Reply? && !e.DataClosed?
    ensures InSession(Step(s, e)) && NextDuty(DutyIn(s), s, e) == DutyIn(Step(s, e))
  {
    StepMovesDevices(s, e);
    assert Step(s, e).log == s.log;
  }

  lemma StepAgrees(s: Ftp, e: Event)
    requires Sound(s) && InSession(s) && Possible(s, e) && !Step(s, e).fault && Proper(DutyIn(s), e)
    ensures Agree(Step(s, e), NextDuty(DutyIn(s), s, e), IsLate(DutyIn(s), e))
  {
    match e
    case Api(call) => CallAgrees(s, call);
    case DataClosed => CloseAgrees(s);
    case Reply(msg) =>
      if IsLate(DutyIn(s), e) {
        LateIsIgnored(s, msg);
      } else if s.ctl.state == Gen {
        GenAgrees(s, msg);
      } else if s.ctl.state == Pasv {
        PasvAgrees(s, msg);
      } else {
        TransferAgrees(s, msg);
      }
    case _ => DeviceAgrees(s, e);
  }

  /** After a late refusal nothing moves any more. */
  lemma StaysLate(s: Ftp, e: Event)
    requires Sound(s) && Agree(s, Duty.Nothing, true) && Possible(s, e) && Proper(Duty.Nothing, e) && !Step(s, e).fault
    ensures Agree(Step(s, e), NextDuty(Duty.Nothing, s, e), true)
  {
    match e
    case Api(call) => assert OnCall(s, call) == Append(s, call);
    case _ =>
  }

  // -------- Runs --------

  lemma {:induction false} RunAgrees(s: Ftp, es: seq<Event>)
    requires Sound(s) && InSession(s) && LiveRun(s, es) && ProperRun(s, es)
    ensures Sound(Run(s, es)) && Agree(Run(s, es), DutyAfter(s, es), LateRefusal(s, es))
    decreases |es|
  {
    if es != [] {
      var before, e := es[..|es| - 1], es[|es| - 1];
      LiveBefore(s, es);
      RunAgrees(s, before);
      StepSound(Run(s, before), e);
      if LateRefusal(s, before) {
        StaysLate(Run(s, before), e);
      } else {
        StepAgrees(Run(s, before), e);
      }
    }
  }

  /** Every command has had its final reply, and the data connection is closed. */
  predicate Finished(s: Ftp, es: seq<Event>) {
    DutyAfter(s, es) == Duty.Nothing && Run(s, es).xfer.dataChannel.None?
  }

  /**
   Whatever the server answers, as long as it keeps to section 5.4, and whatever is called in between: when the
   dialogue is finished the queue is empty and the flag clear if and only if no transfer was refused after its
   preliminary reply.
   */
  lemma FinishedMeansDrainedIff(s: Ftp, es: seq<Event>)
    requires Sound(s) && InSession(s) && LiveRun(s, es) && ProperRun(s, es) && Finished(s, es)
    ensures Drained(Run(s, es)) <==> !LateRefusal(s, es)
  {
    RunAgrees(s, es);
  }

  /** It can happen to any transfer that has begun: refused late, and the data connection closed. */
  lemma LateRefusalStrands(s: Ftp, msg: seq<byte>)
    requires Sound(s) && s.ctl.inProgress && s.ctl.state == Mark && s.xfer.dataChannel.Some? && Code(msg) == '5'
    ensures var es := [Reply(msg)] + [DataClosed];
            && LiveRun(s, es) && ProperRun(s, es) && LateRefusal(s, es)
            && Finished(s, es) && !Drained(Run(s, es))
  {
    var one, es := [Reply(msg)], [Reply(msg)] + [DataClosed];
    LateIsIgnored(s, msg);
    assert one[..0] == [] && Run(s, []) == s && DutyAfter(s, []) == Finish;
    assert LiveRun(s, []) && ProperRun(s, []);
    assert Run(s, one) == s && DutyAfter(s, one) == Duty.Nothing && LateRefusal(s, one);
    assert es[..1] == one;
    var r := OnDataChannelDisconnect(s);
    assert Run(s, es) == r && r.ctl == s.ctl && r.log == s.log && r.xfer.dataChannel.None?;
  }

  /** A proper run without a late refusal has led to `r`, with `d` owed. */
  predicate Leads(s: Ftp, es: seq<Event>, r: Ftp, d: Duty) {
    PossibleRun(s, es) && ProperRun(s, es) && !LateRefusal(s, es) && Run(s, es) == r && DutyAfter(s, es) == d
  }

  /** One more event, one that sends nothing. */
  lemma LeadsOn(s: Ftp, es: seq<Event>, r: Ftp, d: Duty, e: Event, r': Ftp)
    requires Leads(s, es, r, d) && Possible(r, e) && Proper(d, e) && !IsLate(d, e)
    requires Step(r, e) == r' && r'.log.sent == r.log.sent
    ensures Leads(s, es + [e], r', AfterReply(d, e))
  {
    assert (es + [e])[..|es|] == es;
  }

  /** The next thing a pending read of the local file brings. */
  function NextRead(content: seq<byte>): Event {
    if content == [] then FileEnd else FileChunk(1, true)
  }

  /** An upload on a clear channel that has closed early: begun, the read of its file is pending without a channel. */
  lemma BegunUpload(s: Ftp, one: seq<byte>)
    requires Sound(s) && s.ctl.inProgress && s.ctl.state == Data && s.ctl.q[0].verb == STOR && s.dcProt == Clear
    requires s.xfer.dataChannel.None? && s.xfer.fileDevice.None? && s.ctl.q[0].local in s.xfer.disk && Code(one) == '1'
    ensures var r, e := OnReply(s, one), NextRead(Content(s.xfer, s.ctl.q[0].local));
            && !r.fault && r.ctl == To(s, Mark).ctl && r.log == s.log && r.xfer.dataChannel.None?
            && Possible(r, e) && Step(r, e).fault && Step(r, e).ctl == r.ctl && Step(r, e).log == r.log
            && Step(r, e).xfer.dataChannel.None?
  {
    assert CmdOk(s.ctl.q[0]);
    PreliminaryReply(s, one);
  }

  /**
   A server that keeps to section 5.4 can still bring the engine down: an upload on a clear channel whose data
   connection it closes before the preliminary reply. The dialogue is finished, nothing was refused, the engine has
   faulted, and the queue has not drained.
   */
  lemma EarlyCloseFaultsUpload(s: Ftp, one: seq<byte>, two: seq<byte>)
    requires Sound(s) && s.ctl.inProgress && s.ctl.state == Data && s.ctl.q[0].verb == STOR && s.dcProt == Clear
    requires s.xfer.dataChannel.Some? && s.ctl.q[0].local in s.xfer.disk && Code(one) == '1' && Code(two) == '2'
    ensures var es := [DataClosed] + [Reply(one)] + [NextRead(Content(s.xfer, s.ctl.q[0].local))] + [Reply(two)];
            && PossibleRun(s, es) && ProperRun(s, es) && !LateRefusal(s, es) && Finished(s, es)
            && Run(s, es).fault && !Drained(Run(s, es))
  {
    var e := NextRead(Content(s.xfer, s.ctl.q[0].local));
    var s1 := ClosedEarly(s);
    BegunUpload(s1, one);
    var s2 := OnReply(s1, one);
    var s3 := Step(s2, e);
    LeadsToBegun(s, one, s1, s2);
    LeadsThroughFault(s, [DataClosed] + [Reply(one)], s2, e, two, s3);
  }

  lemma ClosedEarly(s: Ftp) returns (r: Ftp)
    requires Sound(s) && s.ctl.inProgress && s.ctl.state == Data && s.xfer.dataChannel.Some?
    ensures Step(s, DataClosed) == r && Sound(r) && r.ctl == s.ctl && r.log == s.log && r.dcProt == s.dcProt
    ensures r.xfer == s.xfer.(dataChannel := None, fileDevice := None)
  {
    r := OnDataChannelDisconnect(s);
    SoundClosed(s);
  }

  lemma LeadsToClosed(s: Ftp, s1: Ftp)
    requires DutyIn(s) == Answer(STOR) && Possible(s, DataClosed) && Step(s, DataClosed) == s1
    requires s1.log.sent == s.log.sent
    ensures Leads(s, [DataClosed], s1, Answer(STOR))
  {
    assert [DataClosed][..0] == [];
    assert Run(s, []) == s && DutyAfter(s, []) == DutyIn(s);
  }

  lemma LeadsToBegun(s: Ftp, one: seq<byte>, s1: Ftp, s2: Ftp)
    requires DutyIn(s) == Answer(STOR) && Possible(s, DataClosed) && Step(s, DataClosed) == s1
    requires s1.log.sent == s.log.sent
    requires Code(one) == '1' && Step(s1, Reply(one)) == s2 && s2.log.sent == s.log.sent
    ensures Leads(s, [DataClosed] + [Reply(one)], s2, Finish)
  {
    LeadsToClosed(s, s1);
    LeadsOn(s, [DataClosed], s1, Answer(STOR), Reply(one), s2);
  }

  lemma LeadsThroughFault(s: Ftp, es: seq<Event>, r: Ftp, e: Event, two: seq<byte>, r': Ftp)
    requires Leads(s, es, r, Finish) && Possible(r, e) && !e.Reply? && Code(two) == '2'
    requires Step(r, e) == r' && r'.log.sent == r.log.sent && r'.fault && r'.ctl.q != [] && r'.xfer.dataChannel.None?
    ensures Leads(s, es + [e] + [Reply(two)], r', Duty.Nothing)
  {
    LeadsOn(s, es, r, Finish, e, r');
    LeadsOn(s, es + [e], r', Finish, Reply(two), r');
  }

  predicate IsServers(e: Event) {
    e.Reply? || e.DataClosed?
  }

  /** How many of the events are the server's. */
  function ServerEvents(es: seq<Event>): nat {
    if es == [] then 0 else ServerEvents(es[..|es| - 1]) + if IsServers(es[|es| - 1]) then 1 else 0
  }

  /** What the server owes advances the engine, unless it comes late. */
  lemma OwedAdvances(s: Ftp, e: Event)
    requires Sound(s) && InSession(s) && Possible(s, e) && Proper(DutyIn(s), e)
    ensures Advances(s, e) <==> IsServers(e) && !IsLate(DutyIn(s), e)
  {
  }

  lemma AdvancesWhenLate(s: Ftp, e: Event)
    requires Sound(s) && Agree(s, Duty.Nothing, true) && Possible(s, e) && Proper(Duty.Nothing, e)
    ensures Advances(s, e) <==> IsServers(e)
  {
  }

  /** All of the server's events advance the engine but one late refusal. */
  lemma {:induction false} ServerAdvances(s: Ftp, es: seq<Event>)
    requires Sound(s) && InSession(s) && LiveRun(s, es) && ProperRun(s, es)
    ensures ServerEvents(es) == Advanced(s, es) + if LateRefusal(s, es) then 1 else 0
    decreases |es|
  {
    if es != [] {
      var before, e := es[..|es| - 1], es[|es| - 1];
      LiveBefore(s, es);
      ServerAdvances(s, before);
      RunAgrees(s, before);
      if LateRefusal(s, before) {
        AdvancesWhenLate(Run(s, before), e);
      } else {
        OwedAdvances(Run(s, before), e);
      }
    }
  }

  /**
   Without further calls the dialogue is over after at most as many replies and closes as the weight, and one late
   refusal.
   */
  lemma DialogueIsBounded(s: Ftp, es: seq<Event>)
    requires Sound(s) && InSession(s) && LiveRun(s, es) && ProperRun(s, es) && forall e <- es :: !e.Api?
    ensures ServerEvents(es) + Left(Run(s, es)) <= Left(s) + if LateRefusal(s, es) then 1 else 0
  {
    ServerAdvances(s, es);
    DrainBound(s, es);
  }

  // -------- A server that grants what the engine survives --------

  /** The server's move: a grant, and a refusal only where the engine would not survive the grant. */
  function Grant(s: Ftp): Event
    requires s.ctl.q != []
  {
    match s.ctl.state
    case Pasv => Reply(PASSIVE)
    case Data => if CanBegin(s) && !CannotOpen(s) then Reply(ONE) else Reply(FOUR)
    case Mark => if s.xfer.dataChannel.None? && s.xfer.fileDevice.Some? then Reply(FOUR) else Reply(TWO)
    case Final => DataClosed
    case _ => Reply(TWO)
  }

  lemma GrantSurvives(s: Ftp)
    requires Sound(s) && InFlight(s)
    ensures Possible(s, Grant(s)) && Orderly(s, Grant(s)) && !Fatal(s, Grant(s)) && !Step(s, Grant(s)).fault
  {
    PassiveHasAddress();
    FaultsIff(s, Grant(s));
  }

  lemma GrantIsProper(s: Ftp)
    requires Sound(s) && InFlight(s)
    ensures var e := Grant(s);
            !e.Api? && Proper(DutyIn(s), e) && Advances(s, e) && !IsLate(DutyIn(s), e)
  {
    PassiveHasAddress();
  }

  /** As long as the queue has not drained such a server has a next move: no session state is a deadlock. */
  lemma SomethingOwedIff(s: Ftp)
    requires Sound(s) && InSession(s)
    ensures Drained(s) <==> forall e :: Possible(s, e) && !Fatal(s, e) && Proper(DutyIn(s), e) ==> !IsServers(e)
  {
    if !Drained(s) {
      GrantIsProper(s);
      GrantSurvives(s);
      assert IsServers(Grant(s));
    }
  }

  /** Every event of the run is such a grant. */
  predicate Granted(s: Ftp, es: seq<Event>)
    decreases |es|
  {
    es != [] ==>
      var before := es[..|es| - 1];
      Granted(s, before) && Run(s, before).ctl.q != [] && es[|es| - 1] == Grant(Run(s, before))
  }

  /** From every session state the grants drain the queue, within the weight. */
  lemma DrainExists(s: Ftp) returns (es: seq<Event>)
    requires Sound(s) && InSession(s)
    ensures LiveRun(s, es) && OrderlyRun(s, es) && ProperRun(s, es) && Granted(s, es) && !LateRefusal(s, es)
    ensures Drained(Run(s, es)) && |es| <= Left(s)
  {
    es := [];
    LeftNotNegative(s);
    while !Drained(Run(s, es))
      invariant LiveRun(s, es) && OrderlyRun(s, es) && ProperRun(s, es) && Granted(s, es) && !LateRefusal(s, es)
      invariant Sound(Run(s, es)) && InSession(Run(s, es)) && |es| + Left(Run(s, es)) <= Left(s)
      decreases Left(Run(s, es))
    {
      es := GrantOne(s, es);
      LeftNotNegative(Run(s, es));
    }
    LeftNotNegative(Run(s, es));
  }

  lemma GrantOne(s: Ftp, es: seq<Event>) returns (es': seq<Event>)
    requires Sound(s) && InSession(s) && LiveRun(s, es) && OrderlyRun(s, es) && ProperRun(s, es)
    requires Granted(s, es) && !LateRefusal(s, es)
    requires Sound(Run(s, es)) && InSession(Run(s, es)) && !Drained(Run(s, es))
    ensures LiveRun(s, es') && OrderlyRun(s, es') && ProperRun(s, es') && Granted(s, es') && !LateRefusal(s, es')
            && |es'| == |es| + 1
    ensures Sound(Run(s, es')) && InSession(Run(s, es')) && Left(Run(s, es')) < Left(Run(s, es))
  {
    var now := Run(s, es);
    RunAgrees(s, es);
    GrantIsProper(now);
    GrantSurvives(now);
    StepSound(now, Grant(now));
    StepLeft(now, Grant(now));
    es' := es + [Grant(now)];
    assert es'[..|es|] == es;
  }
}
