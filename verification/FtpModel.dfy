/**
 The FTP client engine as a function of its events: the state of CProtocolFTP, what each handler does to it, and
 runs. Where the code would dereference a null pointer, take the front of an empty list, throw, or fail an assertion,
 the model sets `fault` and stops. A log records what the theorems speak about; no step reads it.
 */
module FtpModel {
  import opened Wrappers
  import opened Bytes
  import opened FtpAddress

  datatype DCProt = Clear | Protected
  datatype TLS = No | Yes | Implicit

  datatype Verb = PASV | STOR | RETR | LIST | TYPE | PWD | CWD | MKD | RMD | QUIT | PBSZ | PROT

  /** A response callback: none, the caller's, or the one that records the protection level. */
  datatype ResponseCbk = NoResponse | Caller(id: nat) | SetLevel(level: DCProt)

  /** One entry of iCmdQ. */
  datatype Cmd = Cmd(verb: Verb, remote: string, local: string, rcbk: ResponseCbk, tcbk: Option<nat>)

  /** The API. `Simple` is one of the calls that queue a single command: PWD, CWD, MKD, RMD, QUIT. */
  datatype Call =
    | Upload(cbk: Option<nat>, remote: string, local: string, level: DCProt)
    | Download(cbk: Option<nat>, remote: string, local: string, level: DCProt)
    | ListDirectory(cbk: Option<nat>, remote: string, level: DCProt)
    | Simple(verb: Verb, arg: string, rcbk: Option<nat>)

  /** iProtocolState; Mark is "1yz", Final is "xyz". */
  datatype PState =
    | Connecting | Connected | Check | Auth | Tls | Adat | User | Pass | Acct
    | Ready | Pasv | Data | Mark | Final | Gen

  /** What a row of the transition table does after the state has changed. */
  datatype Action =
    | Nothing | CheckExplicitFTPS | Handshake | SendUser | SendPass | SendAcct | Login(ok: bool)
    | SkipTwo | PasvResponse | DataResponse(code: char) | GenResponse

  datatype Row = Row(from: PState, code: char, to: PState, action: Action)

  /**
   iDataChannel: its peer, what was written to it, whether it was shut down, whether its TLS handshake is under way.
   */
  datatype Channel = Channel(peer: Address, out: seq<byte>, stopped: bool, handshaking: bool)

  /** iFileDevice: its path, and how many reads are pending on it. */
  datatype FileDevice = FileDevice(path: string, pending: nat)

  /** `truncates`: opening a local file for a download empties it. */
  datatype Config = Config(tls: TLS, user: string, pass: string, truncates: bool, onConnect: Option<nat>)

  /** How a command left the queue: after having been sent, or skipped unsent behind another. */
  datatype Gone = Retired(cmd: Cmd) | Skipped(cmd: Cmd)

  datatype Callback =
    | Online(id: nat) | Response(id: nat, text: seq<byte>) | Chunk(id: nat, data: seq<byte>) | End(id: nat)

  /** The history of the queue. */
  datatype Log = Log(
    calls: seq<Call>,          // API calls made
    enqueued: seq<Cmd>,        // everything ever appended to iCmdQ
    gone: seq<Gone>,           // everything popped from it, in order
    lost: seq<Cmd>,            // what a failed login cleared from it
    sent: seq<Cmd>)            // queued commands written to the control channel

  /** What the engine said to the server and to its callers. */
  datatype Talk = Talk(
    wire: seq<string>,         // all lines written to the control channel
    answers: seq<seq<byte>>,   // replies that ended a GEN command
    callbacks: seq<Callback>,  // callbacks made
    carried: seq<byte>)        // all bytes written to data channels

  /** iProtocolState, iCmdQ and iCmdInProgress. */
  datatype Control = Control(state: PState, q: seq<Cmd>, inProgress: bool)

  /** iDataChannel, iFileDevice, iContinueTransfer, iCurrentFileOffset, and the local files. */
  datatype Transfer = Transfer(
    dataChannel: Option<Channel>, fileDevice: Option<FileDevice>,
    continueTransfer: bool, offset: nat, disk: map<string, seq<byte>>)

  datatype Ftp = Ftp(
    config: Config, ctl: Control, xfer: Transfer, dcProt: DCProt, fault: bool, log: Log, talk: Talk)

  function Init(config: Config, disk: map<string, seq<byte>>): Ftp {
    Ftp(config, Control(Connecting, [], true), Transfer(None, None, false, 0, disk), Clear, false,
        Log([], [], [], [], []), Talk([], [], [], []))
  }

  /** The same engine in another protocol state. */
  function To(s: Ftp, state: PState): Ftp {
    s.(ctl := s.ctl.(state := state))
  }

  // -------- Commands --------

  predicate IsTransfer(v: Verb) {
    v == RETR || v == LIST || v == STOR
  }

  predicate IsGen(v: Verb) {
    !IsTransfer(v) && v != PASV
  }

  function VerbText(v: Verb): string {
    match v
    case PASV => "PASV" case STOR => "STOR" case RETR => "RETR" case LIST => "LIST" case TYPE => "TYPE"
    case PWD => "PWD" case CWD => "CWD" case MKD => "MKD" case RMD => "RMD" case QUIT => "QUIT"
    case PBSZ => "PBSZ" case PROT => "PROT"
  }

  function LevelText(level: DCProt): string {
    if level == Clear then "C" else "P"
  }

  function Line(verb: string, arg: string): string {
    verb + " " + arg + "\r\n"
  }

  predicate SecureControl(tls: TLS) {
    tls == Yes || tls == Implicit
  }

  /** SetDCProtLevel. */
  function LevelCommands(tls: TLS, level: DCProt): seq<Cmd> {
    if SecureControl(tls) then
      [Cmd(PBSZ, "0", "", NoResponse, None), Cmd(PROT, LevelText(level), "", SetLevel(level), None)]
    else []
  }

  function Callable(cbk: Option<nat>): ResponseCbk {
    if cbk.Some? then Caller(cbk.value) else NoResponse
  }

  const PASV_CMD := Cmd(PASV, "", "", NoResponse, None)

  /** What an API call appends to the queue. */
  function Commands(tls: TLS, call: Call): seq<Cmd> {
    match call
    case Upload(cbk, remote, local, level) =>
      LevelCommands(tls, level) + [PASV_CMD, Cmd(STOR, remote, local, NoResponse, cbk)]
    case Download(cbk, remote, local, level) =>
      LevelCommands(tls, level) + [PASV_CMD, Cmd(RETR, remote, local, NoResponse, cbk)]
    case ListDirectory(cbk, remote, level) =>
      LevelCommands(tls, level)
      + [Cmd(TYPE, "I", "", NoResponse, None), PASV_CMD, Cmd(LIST, remote, "", NoResponse, cbk)]
    case Simple(verb, arg, rcbk) => [Cmd(verb, arg, "", Callable(rcbk), None)]
  }

  /** What the API asserts of its arguments. */
  predicate ValidCall(call: Call) {
    match call
    case Upload(_, remote, local, _) => remote != "" && local != ""
    case Download(cbk, remote, local, _) => remote != "" && (cbk.Some? || local != "")
    case ListDirectory(cbk, _, _) => cbk.Some?
    case Simple(verb, _, _) => verb in {PWD, CWD, MKD, RMD, QUIT}
  }

  // -------- The handlers --------

  function Fault(s: Ftp): Ftp {
    s.(fault := true)
  }

  function Write(s: Ftp, line: string): Ftp {
    s.(talk := s.talk.(wire := s.talk.wire + [line]))
  }

  function StateFor(v: Verb): PState {
    if IsTransfer(v) then Data else if v == PASV then Pasv else Gen
  }

  function ProcessNextCmd(s: Ftp): Ftp {
    if s.ctl.inProgress || s.ctl.q == [] then s
    else
      var c := s.ctl.q[0];
      s.(ctl := s.ctl.(inProgress := true, state := StateFor(c.verb)),
         log := s.log.(sent := s.log.sent + [c]),
         talk := s.talk.(wire := s.talk.wire + [Line(VerbText(c.verb), c.remote)]))
  }

  /** The log entries of `cmds` popped together: the first was in progress, the others never sent. */
  function Departures(cmds: seq<Cmd>): seq<Gone> {
    seq(|cmds|, i requires 0 <= i < |cmds| => if i == 0 then Retired(cmds[i]) else Skipped(cmds[i]))
  }

  /** The queue without its first `count` commands, and the flag clear. */
  function Pop(s: Ftp, count: nat): Ftp
    requires count <= |s.ctl.q|
  {
    s.(ctl := s.ctl.(q := s.ctl.q[count..], inProgress := false),
       log := s.log.(gone := s.log.gone + Departures(s.ctl.q[..count])))
  }

  function SkipCommand(s: Ftp, count: nat): Ftp {
    if |s.ctl.q| < count then Fault(s) else ProcessNextCmd(Pop(s, count))
  }

  function CheckFtps(s: Ftp): Ftp {
    if s.config.tls == Yes then Write(To(s, Auth), Line("AUTH", "TLS"))
    else Write(To(s, User), Line("USER", s.config.user))
  }

  function LoginEvent(s: Ftp, ok: bool): Ftp {
    if ok then ProcessNextCmd(s.(ctl := s.ctl.(inProgress := false)))
    else s.(ctl := s.ctl.(q := [], inProgress := false), log := s.log.(lost := s.log.lost + s.ctl.q))
  }

  function Code(msg: seq<byte>): char {
    if msg == [] then '\0' else msg[0] as int as char
  }

  /** The response callback of a command, run on a reply. */
  function RunResponse(s: Ftp, c: Cmd, msg: seq<byte>): Ftp {
    match c.rcbk
    case NoResponse => s
    case Caller(id) => s.(talk := s.talk.(callbacks := s.talk.callbacks + [Response(id, msg)]))
    case SetLevel(level) => if Code(msg) == '2' then s.(dcProt := level) else s
  }

  function NoteAnswer(s: Ftp, msg: seq<byte>): Ftp {
    s.(talk := s.talk.(answers := s.talk.answers + [msg]))
  }

  function ProcessGenCmdEvent(s: Ftp, msg: seq<byte>): Ftp {
    if s.ctl.q == [] then Fault(s)
    else SkipCommand(NoteAnswer(RunResponse(s, s.ctl.q[0], msg), msg), 1)
  }

  /** A peer without a port fails an assertion. */
  function OpenDataChannel(s: Ftp, peer: Address): Ftp {
    if peer.port == 0 then Fault(s)
    else s.(xfer := s.xfer.(dataChannel := Some(Channel(peer, [], false, false))))
  }

  /** A reply without "(" makes substr throw, and with less than six numbers behind it the code uses unset ones. */
  function ProcessPasvResponse(s: Ftp, msg: seq<byte>): Ftp {
    if ReadAddress(msg).None? then Fault(s)
    else
      var s1 := SkipCommand(s, 1);
      if s1.fault then s1 else OpenDataChannel(s1, ReadAddress(msg).value)
  }

  function InitializeFileDevice(s: Ftp): Ftp {
    if s.ctl.q == [] then Fault(s)
    else
      var c, x := s.ctl.q[0], s.xfer;
      if c.local == "" then s.(xfer := x.(continueTransfer := true))
      else if x.fileDevice.Some? || c.verb == LIST then Fault(s)
      else
        var disk := if c.verb == RETR && (s.config.truncates || c.local !in x.disk)
          then x.disk[c.local := []] else x.disk;
        s.(xfer := x.(fileDevice := Some(FileDevice(c.local, 0)), offset := 0, continueTransfer := true, disk := disk))
  }

  /** Read: one more read pending. */
  function StartRead(x: Transfer): Transfer
    requires x.fileDevice.Some?
  {
    x.(fileDevice := Some(x.fileDevice.value.(pending := x.fileDevice.value.pending + 1)))
  }

  /** A pending read has finished. */
  function FinishRead(x: Transfer): Transfer
    requires x.fileDevice.Some?
  {
    var n := x.fileDevice.value.pending;
    x.(fileDevice := Some(x.fileDevice.value.(pending := if n > 0 then n - 1 else 0)))
  }

  function SetHandshaking(x: Transfer, handshaking: bool): Transfer
    requires x.dataChannel.Some?
  {
    x.(dataChannel := Some(x.dataChannel.value.(handshaking := handshaking)))
  }

  /** For an upload, start the first read of the local file; without an open file there is no context to queue. */
  function TriggerDataTransfer(s: Ftp): Ftp {
    if s.ctl.q == [] then Fault(s)
    else if s.ctl.q[0].verb != STOR then s
    else if s.xfer.fileDevice.None? || s.xfer.fileDevice.value.path !in s.xfer.disk then Fault(s)
    else s.(xfer := StartRead(s.xfer))
  }

  function ResetDevices(s: Ftp): Ftp {
    s.(xfer := s.xfer.(dataChannel := None, fileDevice := None))
  }

  function ProcessDataCmdResponse(s: Ftp, code: char): Ftp {
    if code == '1' then
      var s1 := InitializeFileDevice(s);
      if s1.fault then s1
      else if s1.dcProt == Protected then
        if s1.xfer.dataChannel.None? then Fault(s1) else s1.(xfer := SetHandshaking(s1.xfer, true))
      else TriggerDataTransfer(s1)
    else if code == '2' then
      if s.xfer.dataChannel.None? then SkipCommand(s, 1) else s
    else
      var s1 := ResetDevices(s);
      if s1.ctl.state == Final then SkipCommand(s1, 1) else s1
  }

  function Act(s: Ftp, a: Action, msg: seq<byte>): Ftp {
    match a
    case Nothing => s
    case CheckExplicitFTPS => CheckFtps(s)
    case Handshake => s
    case SendUser => Write(s, Line("USER", s.config.user))
    case SendPass => Write(s, Line("PASS", s.config.pass))
    case SendAcct => Write(s, Line("ACCT", ""))
    case Login(ok) => LoginEvent(s, ok)
    case SkipTwo => SkipCommand(s, 2)
    case PasvResponse => ProcessPasvResponse(s, msg)
    case DataResponse(code) => ProcessDataCmdResponse(s, code)
    case GenResponse => ProcessGenCmdEvent(s, msg)
  }

  /** The transition table as a function: what a reply with first digit `code` means in `state`. */
  function Rule(state: PState, code: char): Option<(PState, Action)> {
    match state
    case Connected =>
      if code == '1' || code == '4' then Some((Connected, Nothing))
      else if code == '2' then Some((Check, CheckExplicitFTPS)) else None
    case Auth =>
      if code == '2' then Some((Tls, Handshake)) else if code == '3' then Some((Adat, Nothing))
      else if code == '4' || code == '5' then Some((User, SendUser)) else None
    case User =>
      if code == '1' || code == '4' || code == '5' then Some((User, Nothing))
      else if code == '2' then Some((Ready, Nothing)) else if code == '3' then Some((Pass, SendPass)) else None
    case Pass =>
      if code == '2' then Some((Ready, Login(true))) else if code == '3' then Some((Acct, SendAcct))
      else if code == '1' || code == '4' || code == '5' then Some((User, Login(false))) else None
    case Pasv =>
      if code == '1' then Some((Data, SkipTwo)) else if code == '2' then Some((Data, PasvResponse))
      else if code == '4' || code == '5' then Some((Ready, SkipTwo)) else None
    case Data =>
      if code == '1' then Some((Mark, DataResponse('1')))
      else if code == '4' || code == '5' then Some((Final, DataResponse(code))) else None
    case Mark =>
      if code == '2' || code == '4' then Some((Final, DataResponse(code))) else None
    case Gen => if '1' <= code <= '5' then Some((Ready, GenResponse)) else None
    case _ => None
  }

  function OnReply(s: Ftp, msg: seq<byte>): Ftp {
    if s.fault then s
    else
      match Rule(s.ctl.state, Code(msg))
      case None => s
      case Some((to, action)) => Act(To(s, to), action, msg)
  }

  // Replies that hold nothing but their first digit.
  const ONE: seq<byte> := [49]
  const TWO: seq<byte> := [50]
  const THREE: seq<byte> := [51]
  const FOUR: seq<byte> := [52]

  // What a reply comes to, state by state.

  lemma IgnoredReply(s: Ftp, msg: seq<byte>)
    requires Rule(s.ctl.state, Code(msg)).None?
    ensures OnReply(s, msg) == s
  {
  }

  lemma GenReply(s: Ftp, msg: seq<byte>)
    requires !s.fault && s.ctl.state == Gen && '1' <= Code(msg) <= '5'
    ensures OnReply(s, msg) == ProcessGenCmdEvent(To(s, Ready), msg)
  {
    assert Rule(s.ctl.state, Code(msg)) == Some((Ready, GenResponse));
    assert OnReply(s, msg) == Act(To(s, Ready), GenResponse, msg);
  }

  lemma PasvAccepted(s: Ftp, msg: seq<byte>)
    requires !s.fault && s.ctl.state == Pasv && Code(msg) == '2'
    ensures OnReply(s, msg) == ProcessPasvResponse(To(s, Data), msg)
  {
  }

  lemma PasvSkipped(s: Ftp, msg: seq<byte>)
    requires !s.fault && s.ctl.state == Pasv && Code(msg) in {'1', '4', '5'}
    ensures OnReply(s, msg) == SkipCommand(To(s, if Code(msg) == '1' then Data else Ready), 2)
  {
  }

  lemma PreliminaryReply(s: Ftp, msg: seq<byte>)
    requires !s.fault && s.ctl.state == Data && Code(msg) == '1'
    ensures OnReply(s, msg) == ProcessDataCmdResponse(To(s, Mark), '1')
  {
  }

  lemma CompletionReply(s: Ftp, msg: seq<byte>)
    requires !s.fault && s.ctl.state == Mark && Code(msg) == '2'
    ensures OnReply(s, msg) == if s.xfer.dataChannel.None? then SkipCommand(To(s, Final), 1) else To(s, Final)
  {
  }

  lemma BreakOffReply(s: Ftp, msg: seq<byte>)
    requires !s.fault && s.ctl.state in {Data, Mark}
    requires Code(msg) == '4' || (Code(msg) == '5' && s.ctl.state == Data)
    ensures OnReply(s, msg) == SkipCommand(ResetDevices(To(s, Final)), 1)
  {
  }

  /** Before the login is decided, a reply only moves the state and writes to the server. */
  lemma LoginTalk(s: Ftp, msg: seq<byte>)
    requires !s.fault && s.ctl.state in {Connected, Auth, User, Pass} && Rule(s.ctl.state, Code(msg)).Some?
    requires s.ctl.state == Pass ==> Code(msg) == '3'
    ensures var r := OnReply(s, msg);
            && r == s.(ctl := s.ctl.(state := r.ctl.state), talk := s.talk.(wire := r.talk.wire))
            && r.ctl.state in {Connected, Auth, Tls, Adat, User, Ready, Pass, Acct}
  {
  }

  lemma LoginReply(s: Ftp, msg: seq<byte>)
    requires !s.fault && s.ctl.state == Pass && Code(msg) in {'1', '2', '4', '5'}
    ensures OnReply(s, msg) == LoginEvent(To(s, if Code(msg) == '2' then Ready else User), Code(msg) == '2')
  {
  }

  function Append(s: Ftp, call: Call): Ftp {
    var cmds := Commands(s.config.tls, call);
    s.(ctl := s.ctl.(q := s.ctl.q + cmds),
       log := s.log.(enqueued := s.log.enqueued + cmds, calls := s.log.calls + [call]))
  }

  function OnCall(s: Ftp, call: Call): Ftp {
    if !ValidCall(call) then Fault(s) else ProcessNextCmd(Append(s, call))
  }

  function StopChannel(s: Ftp): Ftp {
    if s.xfer.dataChannel.None? then Fault(s)
    else s.(xfer := s.xfer.(dataChannel := Some(s.xfer.dataChannel.value.(stopped := true))))
  }

  /** The bytes of `was` with `b` written over them from `at` on. */
  function WriteAt(was: seq<byte>, at: nat, b: seq<byte>): seq<byte> {
    var padded := if at <= |was| then was else was + seq(at - |was|, _ => 0);
    padded[..at] + b + if at + |b| <= |padded| then padded[at + |b|..] else []
  }

  function Content(x: Transfer, path: string): seq<byte> {
    if path in x.disk then x.disk[path] else []
  }

  function Notify(s: Ftp, callback: Callback): Ftp {
    s.(talk := s.talk.(callbacks := s.talk.callbacks + [callback]))
  }

  /** Whether the transfer callback has asked for the transfer to end. */
  predicate Refused(s: Ftp, c: Cmd) {
    c.tcbk.Some? && !s.xfer.continueTransfer
  }

  function ChunkTo(s: Ftp, c: Cmd, b: seq<byte>, more: bool): Ftp {
    if c.tcbk.None? then s
    else Notify(s.(xfer := s.xfer.(continueTransfer := more)), Chunk(c.tcbk.value, b))
  }

  /** `b` written to the local file at the current offset. */
  function Store(x: Transfer, b: seq<byte>): Transfer
    requires x.fileDevice.Some?
  {
    var path := x.fileDevice.value.path;
    x.(disk := x.disk[path := WriteAt(Content(x, path), x.offset, b)], offset := x.offset + |b|)
  }

  /** `more` is what the transfer callback answers if it is called. */
  function OnDataChannelRead(s: Ftp, b: seq<byte>, more: bool): Ftp {
    if s.ctl.q == [] then Fault(s)
    else
      var c := s.ctl.q[0];
      if Refused(s, c) then StopChannel(s)
      else
        var s1 := ChunkTo(s, c, b, more);
        if s1.xfer.fileDevice.None? then s1 else s1.(xfer := Store(s1.xfer, b))
  }

  function NotifyEnd(s: Ftp, c: Cmd): Ftp {
    if c.tcbk.None? then s else Notify(s, End(c.tcbk.value))
  }

  function OnDataChannelDisconnect(s: Ftp): Ftp {
    if s.ctl.q == [] then Fault(s) else ProcessDataCmdResponse(NotifyEnd(s, s.ctl.q[0]), '0')
  }

  /** `b` written to the data channel, and the next read of the local file started. */
  function Forward(x: Transfer, b: seq<byte>): Transfer
    requires x.dataChannel.Some? && x.fileDevice.Some?
  {
    var channel := x.dataChannel.value;
    StartRead(x.(dataChannel := Some(channel.(out := channel.out + b)), offset := x.offset + |b|))
  }

  function Carry(s: Ftp, b: seq<byte>): Ftp
    requires s.xfer.dataChannel.Some? && s.xfer.fileDevice.Some?
  {
    s.(xfer := Forward(s.xfer, b), talk := s.talk.(carried := s.talk.carried + b))
  }

  /** The pending read of the local file brings `b`. */
  function OnFileRead(s: Ftp, b: seq<byte>, more: bool): Ftp {
    if s.ctl.q == [] || s.xfer.fileDevice.None? then Fault(s)
    else
      var c := s.ctl.q[0];
      var idle := s.(xfer := FinishRead(s.xfer));
      if Refused(s, c) then StopChannel(idle)
      else
        var s1 := ChunkTo(idle, c, b, more);
        if s1.xfer.dataChannel.None? then Fault(s1) else Carry(s1, b)
  }

  /** The pending read found the end of the file. */
  function OnFileDisconnect(s: Ftp): Ftp {
    if s.xfer.fileDevice.None? then Fault(s) else StopChannel(s.(xfer := FinishRead(s.xfer)))
  }

  function OnConnect(s: Ftp): Ftp {
    To(if s.config.onConnect.Some? then Notify(s, Online(s.config.onConnect.value)) else s, Connected)
  }

  function OnDataHandshake(s: Ftp): Ftp {
    if s.xfer.dataChannel.None? then Fault(s) else TriggerDataTransfer(s.(xfer := SetHandshaking(s.xfer, false)))
  }

  // -------- Events and runs --------

  datatype Event =
    | Api(call: Call)
    | Connect
    | ControlHandshake
    | Reply(msg: seq<byte>)
    | DataHandshake
    | DataChunk(data: seq<byte>, more: bool)
    | DataClosed
    | FileChunk(length: nat, more: bool)
    | FileEnd

  const BUFFER_SIZE: nat := 256

  /** The bytes a pending read of `n` bytes brings. */
  function Pending(x: Transfer, n: nat): seq<byte> {
    if x.fileDevice.None? then []
    else
      var content := Content(x, x.fileDevice.value.path);
      if x.offset + n <= |content| then content[x.offset..x.offset + n] else []
  }

  function Step(s: Ftp, e: Event): Ftp {
    if s.fault then s
    else
      match e
      case Api(call) => OnCall(s, call)
      case Connect => OnConnect(s)
      case ControlHandshake =>
        if s.config.tls == Yes then Write(To(s, User), Line("USER", s.config.user)) else s
      case Reply(msg) => OnReply(s, msg)
      case DataHandshake => OnDataHandshake(s)
      case DataChunk(data, more) => OnDataChannelRead(s, data, more)
      case DataClosed => OnDataChannelDisconnect(s)
      case FileChunk(n, more) => OnFileRead(s, Pending(s.xfer, n), more)
      case FileEnd => OnFileDisconnect(s)
  }

  /** The event can come: only an open channel, a running handshake or a pending read raises one. */
  predicate Possible(s: Ftp, e: Event) {
    match e
    case Api(call) => ValidCall(call)
    case Connect => s.ctl.state == Connecting
    case ControlHandshake => s.ctl.state == Tls && s.config.tls == Yes
    case Reply(msg) => true
    case DataHandshake => s.xfer.dataChannel.Some? && s.xfer.dataChannel.value.handshaking
    case DataChunk(data, _) => s.xfer.dataChannel.Some? && data != []
    case DataClosed => s.xfer.dataChannel.Some?
    case FileChunk(n, _) =>
      && s.xfer.fileDevice.Some? && s.xfer.fileDevice.value.pending > 0 && 1 <= n <= BUFFER_SIZE
      && s.xfer.offset + n <= |Content(s.xfer, s.xfer.fileDevice.value.path)|
    case FileEnd =>
      && s.xfer.fileDevice.Some? && s.xfer.fileDevice.value.pending > 0
      && s.xfer.offset == |Content(s.xfer, s.xfer.fileDevice.value.path)|
  }

  function Run(s: Ftp, es: seq<Event>): Ftp
    decreases |es|
  {
    if es == [] then s else Step(Run(s, es[..|es| - 1]), es[|es| - 1])
  }

  lemma RunAppend(s: Ftp, es: seq<Event>, e: Event)
    ensures Run(s, es + [e]) == Step(Run(s, es), e)
    ensures PossibleRun(s, es + [e]) <==> PossibleRun(s, es) && Possible(Run(s, es), e)
  {
    assert (es + [e])[..|es|] == es;
  }

  /** Every event of the run can come when it comes. */
  predicate PossibleRun(s: Ftp, es: seq<Event>)
    decreases |es|
  {
    es != [] ==>
      var before := es[..|es| - 1];
      PossibleRun(s, before) && Possible(Run(s, before), es[|es| - 1])
  }

  // -------- What only API calls change --------

  /** The configuration, and what has been called and queued so far, are the same. */
  predicate SameCalls(s: Ftp, r: Ftp) {
    r.config == s.config && r.log.calls == s.log.calls && r.log.enqueued == s.log.enqueued
  }

  lemma SkipSameCalls(s: Ftp, count: nat)
    ensures SameCalls(s, SkipCommand(s, count))
  {
  }

  lemma DataResponseSameCalls(s: Ftp, code: char)
    ensures SameCalls(s, ProcessDataCmdResponse(s, code))
  {
    if code == '1' {
      assert SameCalls(s, InitializeFileDevice(s));
    } else {
      SkipSameCalls(s, 1);
      SkipSameCalls(ResetDevices(s), 1);
    }
  }

  lemma ActSameCalls(s: Ftp, a: Action, msg: seq<byte>)
    ensures SameCalls(s, Act(s, a, msg))
  {
    match a
    case SkipTwo => SkipSameCalls(s, 2);
    case PasvResponse => SkipSameCalls(s, 1);
    case DataResponse(code) => DataResponseSameCalls(s, code);
    case GenResponse =>
      if s.ctl.q != [] {
        SkipSameCalls(NoteAnswer(RunResponse(s, s.ctl.q[0], msg), msg), 1);
      }
    case _ =>
  }

  /** No event but an API call changes what was called or queued, and a call adds itself and its commands. */
  lemma StepCalls(s: Ftp, e: Event)
    ensures !e.Api? ==> SameCalls(s, Step(s, e))
    ensures e.Api? ==> Step(s, e) == if s.fault then s else OnCall(s, e.call)
  {
    match e
    case Reply(msg) =>
      if !s.fault && Rule(s.ctl.state, Code(msg)).Some? {
        var (to, action) := Rule(s.ctl.state, Code(msg)).value;
        ActSameCalls(To(s, to), action, msg);
      }
    case DataClosed =>
      if s.ctl.q != [] {
        DataResponseSameCalls(NotifyEnd(s, s.ctl.q[0]), '0');
      }
    case _ =>
  }
}
