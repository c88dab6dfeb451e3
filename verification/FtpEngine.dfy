/**
 CProtocolFTP as the source has it: an object whose handlers update its fields, a transition table that
 is scanned row by row, and loops that pop the queue. Every method is proved to do to the object what
 FtpModel's function of the same name does to its state.
 */
module FtpEngine {
  import opened Wrappers
  import opened Bytes
  import opened FtpAddress
  import opened FtpModel

  const TABLE: seq<Row> := [
    // Connection states
    Row(Connected, '1', Connected, Nothing),
    Row(Connected, '2', Check, CheckExplicitFTPS),
    Row(Connected, '4', Connected, Nothing),
    Row(Auth, '2', Tls, Handshake),
    Row(Auth, '3', Adat, Nothing),
    Row(Auth, '4', User, SendUser),
    Row(Auth, '5', User, SendUser),
    // USER states
    Row(User, '1', User, Nothing),
    Row(User, '2', Ready, Nothing),
    Row(User, '3', Pass, SendPass),
    Row(User, '4', User, Nothing),
    Row(User, '5', User, Nothing),
    // PASS states
    Row(Pass, '1', User, Login(false)),
    Row(Pass, '2', Ready, Login(true)),
    Row(Pass, '3', Acct, SendAcct),
    Row(Pass, '4', User, Login(false)),
    Row(Pass, '5', User, Login(false)),
    // PASV states
    Row(Pasv, '1', Data, SkipTwo),
    Row(Pasv, '2', Data, PasvResponse),
    Row(Pasv, '4', Ready, SkipTwo),
    Row(Pasv, '5', Ready, SkipTwo),
    // Transfer states
    Row(Data, '1', Mark, DataResponse('1')),
    Row(Mark, '2', Final, DataResponse('2')),
    Row(Mark, '4', Final, DataResponse('4')),
    Row(Data, '4', Final, DataResponse('4')),
    Row(Data, '5', Final, DataResponse('5')),
    Row(Gen, '1', Ready, GenResponse),
    Row(Gen, '2', Ready, GenResponse),
    Row(Gen, '3', Ready, GenResponse),
    Row(Gen, '4', Ready, GenResponse),
    Row(Gen, '5', Ready, GenResponse)
  ]

  ghost predicate Matches(row: Row, state: PState, code: char) {
    row.from == state && row.code == code
  }

  /** Every row says what Rule says. */
  lemma RowsFollowRule(i: nat)
    requires i < |TABLE|
    ensures Rule(TABLE[i].from, TABLE[i].code) == Some((TABLE[i].to, TABLE[i].action))
  {
  }

  /** The row that answers `code` in `state`, if any. */
  function RowIndex(state: PState, code: char): nat {
    match state
    case Connected => if code == '1' then 0 else if code == '2' then 1 else 2
    case Auth => if code == '2' then 3 else if code == '3' then 4 else if code == '4' then 5 else 6
    case User => if code == '1' then 7 else if code == '2' then 8 else if code == '3' then 9
      else if code == '4' then 10 else 11
    case Pass => if code == '1' then 12 else if code == '2' then 13 else if code == '3' then 14
      else if code == '4' then 15 else 16
    case Pasv => if code == '1' then 17 else if code == '2' then 18 else if code == '4' then 19 else 20
    case Data => if code == '1' then 21 else if code == '4' then 24 else 25
    case Mark => if code == '2' then 22 else 23
    case _ => if code == '1' then 26 else if code == '2' then 27 else if code == '3' then 28
      else if code == '4' then 29 else 30
  }

  /** Where Rule says something there is a row: no pair of state and digit is handled outside the table. */
  lemma RuleHasRow(state: PState, code: char)
    requires Rule(state, code).Some?
    ensures RowIndex(state, code) < |TABLE| && Matches(TABLE[RowIndex(state, code)], state, code)
  {
    assert state == Gen ==> code == '1' || code == '2' || code == '3' || code == '4' || code == '5';
  }

  class CProtocolFTP {
    const config: Config
    var iProtocolState: PState
    var iCmdQ: seq<Cmd>
    var iCmdInProgress: bool
    var iDataChannel: Option<Channel>
    var iFileDevice: Option<FileDevice>
    var iDCProt: DCProt
    var iContinueTransfer: bool
    var iCurrentFileOffset: nat
    var disk: map<string, seq<byte>>
    var fault: bool
    ghost var log: Log
    ghost var talk: Talk

    ghost function State(): Ftp
      reads this
    {
      Ftp(config, Control(iProtocolState, iCmdQ, iCmdInProgress),
          Transfer(iDataChannel, iFileDevice, iContinueTransfer, iCurrentFileOffset, disk), iDCProt, fault, log, talk)
    }

    constructor (config: Config, disk: map<string, seq<byte>>)
      ensures State() == Init(config, disk)
    {
      this.config := config;
      iProtocolState, iCmdQ := Connecting, [];
      iCmdInProgress := true;
      iDataChannel, iFileDevice := None, None;
      iDCProt, iContinueTransfer, iCurrentFileOffset := Clear, false, 0;
      this.disk := disk;
      fault := false;
      log, talk := Log([], [], [], [], []), Talk([], [], [], []);
    }

    // -------- The API --------

    method Upload(cbk: Option<nat>, fRemote: string, fLocal: string, P: DCProt)
      requires ValidCall(Call.Upload(cbk, fRemote, fLocal, P))
      modifies this
      ensures State() == OnCall(old(State()), Call.Upload(cbk, fRemote, fLocal, P))
    {
      SetDCProtLevel(P);
      Enqueue(Cmd(PASV, "", "", NoResponse, None));
      Enqueue(Cmd(STOR, fRemote, fLocal, NoResponse, cbk));
      NoteCall(old(State()), Call.Upload(cbk, fRemote, fLocal, P));
      ProcessNextCmd();
    }

    method Download(cbk: Option<nat>, fRemote: string, fLocal: string, P: DCProt)
      requires ValidCall(Call.Download(cbk, fRemote, fLocal, P))
      modifies this
      ensures State() == OnCall(old(State()), Call.Download(cbk, fRemote, fLocal, P))
    {
      SetDCProtLevel(P);
      Enqueue(Cmd(PASV, "", "", NoResponse, None));
      Enqueue(Cmd(RETR, fRemote, fLocal, NoResponse, cbk));
      NoteCall(old(State()), Call.Download(cbk, fRemote, fLocal, P));
      ProcessNextCmd();
    }

    method ListDirectory(cbk: Option<nat>, fRemote: string, P: DCProt)
      requires ValidCall(Call.ListDirectory(cbk, fRemote, P))
      modifies this
      ensures State() == OnCall(old(State()), Call.ListDirectory(cbk, fRemote, P))
    {
      SetDCProtLevel(P);
      Enqueue(Cmd(TYPE, "I", "", NoResponse, None));
      Enqueue(Cmd(PASV, "", "", NoResponse, None));
      Enqueue(Cmd(LIST, fRemote, "", NoResponse, cbk));
      NoteCall(old(State()), Call.ListDirectory(cbk, fRemote, P));
      ProcessNextCmd();
    }

    /** GetCurrentDir, SetCurrentDir, CreateDir, RemoveDir and Quit. */
    method SimpleCommand(verb: Verb, arg: string, cbk: Option<nat>)
      requires ValidCall(Call.Simple(verb, arg, cbk))
      modifies this
      ensures State() == OnCall(old(State()), Call.Simple(verb, arg, cbk))
    {
      Enqueue(Cmd(verb, arg, "", Callable(cbk), None));
      NoteCall(old(State()), Call.Simple(verb, arg, cbk));
      ProcessNextCmd();
    }

    method Enqueue(c: Cmd)
      modifies this`iCmdQ, this`log
      ensures iCmdQ == old(iCmdQ) + [c] && log == old(log).(enqueued := old(log.enqueued) + [c])
    {
      iCmdQ := iCmdQ + [c];
      log := log.(enqueued := log.enqueued + [c]);
    }

    ghost method NoteCall(before: Ftp, call: Call)
      requires iCmdQ == before.ctl.q + Commands(before.config.tls, call)
      requires log == before.log.(enqueued := before.log.enqueued + Commands(before.config.tls, call))
      modifies this`log
      ensures log == before.log.(enqueued := before.log.enqueued + Commands(before.config.tls, call),
                                 calls := before.log.calls + [call])
    {
      log := log.(calls := log.calls + [call]);
    }

    method SetDCProtLevel(P: DCProt)
      modifies this`iCmdQ, this`log
      ensures iCmdQ == old(iCmdQ) + LevelCommands(config.tls, P)
      ensures log == old(log).(enqueued := old(log.enqueued) + LevelCommands(config.tls, P))
    {
      if config.tls == Yes || config.tls == Implicit {
        Enqueue(Cmd(PBSZ, "0", "", NoResponse, None));
        var level := if P == Clear then "C" else "P";
        Enqueue(Cmd(PROT, level, "", SetLevel(if level == "C" then Clear else Protected), None));
      }
    }

    // -------- The queue --------

    method SendCommand(c: string, arg: string)
      modifies this`talk
      ensures State() == FtpModel.Write(old(State()), Line(c, arg))
    {
      talk := talk.(wire := talk.wire + [Line(c, arg)]);
    }

    method ProcessNextCmd()
      modifies this
      ensures State() == FtpModel.ProcessNextCmd(old(State()))
    {
      var was := iCmdInProgress;  // test_and_set
      iCmdInProgress := true;
      if was == false {
        if |iCmdQ| == 0 {
          iCmdInProgress := false;
          return;
        }
        var c := iCmdQ[0];
        if IsTransfer(c.verb) {
          iProtocolState := Data;
        } else if c.verb == PASV {
          iProtocolState := Pasv;
        } else {
          iProtocolState := Gen;
        }
        SendCommand(VerbText(c.verb), c.remote);
        log := log.(sent := log.sent + [c]);
      }
    }

    method SkipCommand(count: nat)
      modifies this
      ensures State() == FtpModel.SkipCommand(old(State()), count)
    {
      if |iCmdQ| < count {
        fault := true;
        return;
      }
      for i := 0 to count
        invariant iCmdQ == old(iCmdQ)[i..]
        invariant log == old(log).(gone := old(log.gone) + Departures(old(iCmdQ)[..count])[..i])
        invariant State() == old(State()).(ctl := old(State()).ctl.(q := iCmdQ), log := log)
      {
        log := log.(gone := log.gone + [if i == 0 then Retired(iCmdQ[0]) else Skipped(iCmdQ[0])]);
        iCmdQ := iCmdQ[1..];
      }
      assert Departures(old(iCmdQ)[..count])[..count] == Departures(old(iCmdQ)[..count]);
      iCmdInProgress := false;
      ProcessNextCmd();
    }

    // -------- Replies --------

    method StateMachine(msg: seq<byte>)
      modifies this
      ensures State() == OnReply(old(State()), msg)
    {
      if fault {
        return;
      }
      var code := Code(msg);
      var i := 0;
      while i < |TABLE| && !(iProtocolState == TABLE[i].from && TABLE[i].code == code)
        invariant i <= |TABLE|
        invariant forall j :: 0 <= j < i ==> !Matches(TABLE[j], iProtocolState, code)
      {
        i := i + 1;
      }
      if i < |TABLE| {
        RowsFollowRule(i);
        iProtocolState := TABLE[i].to;
        Perform(TABLE[i].action, msg);
      } else if Rule(iProtocolState, code).Some? {
        RuleHasRow(iProtocolState, code);
        assert false;
      }
    }

    /** The function stored in a row of the table. */
    method Perform(a: Action, msg: seq<byte>)
      modifies this
      ensures State() == Act(old(State()), a, msg)
    {
      match a
      case Nothing =>
      case CheckExplicitFTPS =>
        if config.tls == Yes {
          iProtocolState := Auth;
          SendCommand("AUTH", "TLS");
        } else {
          iProtocolState := User;
          SendCommand("USER", config.user);
        }
      case Handshake =>
      case SendUser => SendCommand("USER", config.user);
      case SendPass => SendCommand("PASS", config.pass);
      case SendAcct => SendCommand("ACCT", "");
      case Login(ok) => ProcessLoginEvent(ok);
      case SkipTwo => SkipCommand(2);
      case PasvResponse => ProcessPasvResponse(msg);
      case DataResponse(code) => ProcessDataCmdResponse(code);
      case GenResponse => ProcessGenCmdEvent(msg);
    }

    method ProcessLoginEvent(status: bool)
      modifies this
      ensures State() == LoginEvent(old(State()), status)
    {
      if status {
        iCmdInProgress := false;
        ProcessNextCmd();
      } else {
        log := log.(lost := log.lost + iCmdQ);
        iCmdQ := [];
        iCmdInProgress := false;
      }
    }

    method ProcessGenCmdEvent(msg: seq<byte>)
      modifies this
      ensures State() == FtpModel.ProcessGenCmdEvent(old(State()), msg)
    {
      if |iCmdQ| == 0 {
        fault := true;
        return;
      }
      match iCmdQ[0].rcbk {
        case NoResponse =>
        case Caller(id) =>
          talk := talk.(callbacks := talk.callbacks + [Response(id, msg)]);
        case SetLevel(level) =>
          if Code(msg) == '2' {
            iDCProt := level;
          }
      }
      talk := talk.(answers := talk.answers + [msg]);
      SkipCommand(1);
    }

    method ProcessPasvResponse(msg: seq<byte>)
      modifies this
      ensures State() == FtpModel.ProcessPasvResponse(old(State()), msg)
    {
      var peer := ReadAddress(msg);
      if peer.None? {
        fault := true;
        return;
      }
      SkipCommand(1);
      if !fault {
        OpenDataChannel(peer.value);
      }
    }

    method OpenDataChannel(peer: Address)
      modifies this`iDataChannel, this`fault
      ensures State() == FtpModel.OpenDataChannel(old(State()), peer)
    {
      if peer.port == 0 {
        fault := true;
      } else {
        iDataChannel := Some(Channel(peer, [], false, false));
      }
    }

    method ProcessDataCmdResponse(code: char)
      modifies this
      ensures State() == FtpModel.ProcessDataCmdResponse(old(State()), code)
    {
      if code == '1' {
        InitializeFileDevice();
        if fault {
          return;
        }
        if iDCProt == Protected {
          if iDataChannel.None? {
            fault := true;
          } else {
            iDataChannel := Some(iDataChannel.value.(handshaking := true));
          }
        } else {
          TriggerDataTransfer();
        }
      } else if code == '2' {
        if iDataChannel.None? {
          SkipCommand(1);
        }
      } else {
        if iDataChannel.Some? {
          iDataChannel := None;
        }
        if iFileDevice.Some? {
          iFileDevice := None;
        }
        if iProtocolState == Final {
          SkipCommand(1);
        }
      }
    }

    // -------- Transfers --------

    method InitializeFileDevice()
      modifies this
      ensures State() == FtpModel.InitializeFileDevice(old(State()))
    {
      if |iCmdQ| == 0 {
        fault := true;
        return;
      }
      var c := iCmdQ[0];
      if |c.local| > 0 {
        if iFileDevice.Some? || c.verb == LIST {
          fault := true;
          return;
        }
        iFileDevice := Some(FileDevice(c.local, 0));
        if c.verb == RETR && (config.truncates || c.local !in disk) {
          disk := disk[c.local := []];
        }
        iCurrentFileOffset := 0;
      }
      iContinueTransfer := true;
    }

    method TriggerDataTransfer()
      modifies this
      ensures State() == FtpModel.TriggerDataTransfer(old(State()))
    {
      if |iCmdQ| == 0 {
        fault := true;
        return;
      }
      if iCmdQ[0].verb == STOR {
        if iFileDevice.None? || iFileDevice.value.path !in disk {
          fault := true;
        } else {
          iFileDevice := Some(iFileDevice.value.(pending := iFileDevice.value.pending + 1));
        }
      }
    }

    method StopSocket()
      modifies this
      ensures State() == StopChannel(old(State()))
    {
      if iDataChannel.None? {
        fault := true;
      } else {
        iDataChannel := Some(iDataChannel.value.(stopped := true));
      }
    }

    /** Both transfer callbacks start the same way; false means the transfer has been stopped. */
    method OfferChunk(b: seq<byte>, more: bool) returns (proceed: bool)
      requires |iCmdQ| > 0
      modifies this
      ensures !proceed <==> old(iCmdQ[0].tcbk.Some? && !iContinueTransfer)
      ensures State() == if proceed then ChunkTo(old(State()), old(iCmdQ[0]), b, more) else StopChannel(old(State()))
    {
      var c := iCmdQ[0];
      if c.tcbk.Some? {
        if iContinueTransfer {
          talk := talk.(callbacks := talk.callbacks + [Chunk(c.tcbk.value, b)]);
          iContinueTransfer := more;
        } else {
          StopSocket();
          return false;
        }
      }
      return true;
    }

    method OnDataChannelRead(b: seq<byte>, more: bool)
      modifies this
      ensures State() == FtpModel.OnDataChannelRead(old(State()), b, more)
    {
      if |iCmdQ| == 0 {
        fault := true;
        return;
      }
      var proceed := OfferChunk(b, more);
      if proceed && iFileDevice.Some? {
        var path := iFileDevice.value.path;
        var content := if path in disk then disk[path] else [];
        disk := disk[path := WriteAt(content, iCurrentFileOffset, b)];
        iCurrentFileOffset := iCurrentFileOffset + |b|;
      }
    }

    method OnDataChannelDisconnect()
      modifies this
      ensures State() == FtpModel.OnDataChannelDisconnect(old(State()))
    {
      if |iCmdQ| == 0 {
        fault := true;
        return;
      }
      var c := iCmdQ[0];
      if c.tcbk.Some? {
        talk := talk.(callbacks := talk.callbacks + [End(c.tcbk.value)]);
      }
      ProcessDataCmdResponse('0');
    }

    /** The read that raised the event is no longer pending. */
    method FinishRead()
      requires iFileDevice.Some?
      modifies this`iFileDevice
      ensures State() == old(State()).(xfer := FtpModel.FinishRead(old(State()).xfer))
    {
      var n := iFileDevice.value.pending;
      iFileDevice := Some(iFileDevice.value.(pending := if n > 0 then n - 1 else 0));
    }

    method OnFileRead(b: seq<byte>, more: bool)
      modifies this
      ensures State() == FtpModel.OnFileRead(old(State()), b, more)
    {
      if |iCmdQ| == 0 || iFileDevice.None? {
        fault := true;
        return;
      }
      FinishRead();
      var proceed := OfferChunk(b, more);
      if !proceed {
        return;
      }
      if iDataChannel.None? {
        fault := true;
        return;
      }
      iDataChannel := Some(iDataChannel.value.(out := iDataChannel.value.out + b));
      talk := talk.(carried := talk.carried + b);
      iCurrentFileOffset := iCurrentFileOffset + |b|;
      iFileDevice := Some(iFileDevice.value.(pending := iFileDevice.value.pending + 1));
    }

    method OnFileDisconnect()
      modifies this
      ensures State() == FtpModel.OnFileDisconnect(old(State()))
    {
      if iFileDevice.None? {
        fault := true;
        return;
      }
      FinishRead();
      StopSocket();
    }

    /** The data channel's TLS handshake has finished. */
    method OnDataHandshake()
      modifies this
      ensures State() == FtpModel.OnDataHandshake(old(State()))
    {
      if iDataChannel.None? {
        fault := true;
        return;
      }
      iDataChannel := Some(iDataChannel.value.(handshaking := false));
      TriggerDataTransfer();
    }

    /** The control channel's TLS handshake has finished. */
    method OnControlHandshake()
      requires !fault
      modifies this
      ensures State() == Step(old(State()), ControlHandshake)
    {
      if config.tls == Yes {
        iProtocolState := User;
        SendCommand("USER", config.user);
      }
    }

    method OnConnect()
      requires !fault
      modifies this`iProtocolState, this`talk
      ensures State() == Step(old(State()), Connect)
    {
      if config.onConnect.Some? {
        talk := talk.(callbacks := talk.callbacks + [Online(config.onConnect.value)]);
      }
      iProtocolState := Connected;
    }
  }
}
