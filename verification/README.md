# Verification of the C++17 network protocol library

A Dafny model of three connected parts of the library, with proofs about every run of them:

1. **The FTP client engine** (`INCLUDE/CProtocolFTP.hpp`): the command queue, the flag that says a command is in progress,
   the transition table, and the data channel and local file whose events race with the replies on the control channel.
2. **The framers** behind `CProtocol::OnRead`: FTP replies, the HTTP upgrade request, WebSocket frames. One byte loop is
   shared by three tests for a complete message, and the WebSocket protocol changes its grammar in the middle of the stream.
3. **The subject tree** (`INCLUDE/CSubject.hpp`) and the dispatcher's loopback (`INCLUDE/CDispatcher.hpp`): the removal
   sweep over the observer list, the walk up to the dispatcher, and the reassembly of queued contexts from a byte stream.

`dafny verify dfyconfig.toml` checks the whole project.

## How the model is built

Code that updates an object is a class with the source's fields; each method is proved to do to the object exactly what
a function of the old state says, and the properties are proved about those functions. So `FtpEngine` holds the object
and `FtpModel` the functions; the same split is in `Framing`, `WsProtocol`, `Subject` and `Dispatcher`.

| module | what it is about |
|---|---|
| `Bytes`, `Wrappers` | byte strings, big-endian numbers, exclusive or |
| `Framing` | the receive loop over any completeness test |
| `FtpReply`, `HttpMessage`, `WsFrame` | where a reply, a request head and a frame end, and what they say |
| `WsProtocol` | handshake, change of grammar, delivery |
| `FtpAddress` | the address in the reply to PASV |
| `FtpModel`, `FtpEngine` | the engine as functions of its events, and as an object |
| `FtpInvariant` | what holds in every state, which events the code fails on, and which break the invariant |
| `FtpWire`, `FtpCalls` | the lines written, read back by a server's rules, and the calls they come from |
| `FtpCredentials` | the login as the server sees it; what is written before the TLS handshake |
| `FtpSecure` | where the data channel connects, and when it is under a TLS handshake |
| `FtpCallbacks` | which function of which call is called back, and when |
| `FtpHistory`, `FtpOrder` | first in first out, one command in flight, one answer for each caller; the order in which the server sees commands |
| `FtpJoin`, `FtpEnd` | how a transfer ends, and what its callback is told |
| `FtpTransfer`, `FtpUpload` | what a download and an upload move |
| `FtpLeftover` | the local file an early close leaves open, and what it does to later transfers |
| `FtpDrain`, `FtpServer` | progress against a server that keeps to section 5.4 of RFC 959 |
| `FtpLogin`, `FtpProtection` | login, protection level, runs that go wrong and one that goes well |
| `FtpThreads` | flag and queue with every step of every thread on its own |
| `FtpSession` | bytes on the control channel driving the engine |
| `Subject`, `Dispatcher` | observer lists, the walk to the dispatcher, the loopback |
| `FtpSweep` | sweeps and engine together: the result of a read that arrives after the transfer has ended |

**Events of the engine.** An API call, the connection, the end of a TLS handshake, a complete reply, a chunk or the close
of the data channel, a chunk or the end of the local file. `Possible` says when an event can come at all (only an open
channel closes, only a pending read finishes). Where the code would take the front of an empty queue, follow a null
pointer, throw, or fail an assertion, the model sets `fault` and stops. A log of calls, queued, sent and retired commands,
answers and callbacks is kept beside the state; no step reads it.

**Two invariants.** The control part, `FtpInvariant.Sound`, says that queue, flag and state fit together and that the data channel
is open for a transfer only. Every possible event that does not fault keeps it (`StepSound`), and a possible event faults if and only if
it is one of those listed in `Fatal`, each a check on the state and the event (`FaultsIff`). What is proved about the queue, the
order of commands, the callbacks, the levels, the login, progress, and the way transfers end therefore holds on every possible run that has
not faulted (`LiveRun`); a theorem that asks more of the server, such as keeping to section 5.4 of RFC 959, says so in its row.

The full invariant, `Inv`, adds the devices: a local file is open for the transfer in flight only. It is what the contents of files and
of the data channel depend on. `StepKeepsIff` proves that exactly four kinds of reply break it, those that `Orderly` excludes:

- class 1, 4 or 5 when nothing is in flight and class 1 to the last PASV has left the state DATA;
- class 2 to PASV without six numbers behind "(", or with port zero;
- the preliminary reply to the upload of a file that does not exist, or, if the data channel has closed before it, to an upload
  or to a protected transfer;
- the completion reply to a download into a local file, if the data channel closed before the preliminary reply.

A data channel that closes before the preliminary reply is harmless for a transfer that is then refused or broken off, and for one
without a local file.

**Parameters.** The digest of the handshake key, the length announced by a "Content-Length" text, the bytes of the
unset masking key, the bytes in memory behind each buffer, and whether opening a local file for a download empties it (it does on
Windows, not on Linux) are parameters; the theorems hold for all values of them.

## What the proofs found

Each of these is a lemma, with the exact condition where there is one.

- A reply of class 1 to PASV can leave the engine in DATA with an empty queue; another reply of class 1, 4 or 5 then takes the
  front of it (`FtpLogin.PreliminaryPasvFaults`, exactly when in `FtpLogin.PasvSkipFaultsNextIff`, and in general `FtpInvariant.UnaskedBreaks`).
- Of a reply of class 2 to PASV the code takes six numbers without looking at how many `sscanf` has found: with fewer it goes on with
  variables that were never set, which is undefined; with port zero the assertion in the socket fails. The model counts both as a
  fault (`FtpInvariant.AddressOrFault`).
- When the data channel closes before the preliminary reply and the transfer is then completed, a file device is left behind
  if and only if there is a local file (`FtpLeftover.EarlyCloseLeavesFileIff`). It stays until a data channel closes or a transfer is
  refused or broken off (`FtpLeftover.StaysOpenIff`). Until then the preliminary reply of another transfer fails an assertion if and
  only if that transfer has a local file of its own (`FtpLeftover.NextLocalFileFaultsIff`); a listing, or a download with a
  callback only, writes what it receives into the old file (`FtpLeftover.LeftoverIsOverwritten`).
- A server that accepts USER without a password leaves the flag set for good: nothing is ever sent
  (`FtpLogin.LoginWithoutPasswordStalls`).
- RFC 959 lets a server refuse an upload with 551 or 552 after the preliminary reply; the table has no row for that, and the engine
  never sends anything again (`FtpJoin.LateRefusalStalls`). Against a server that keeps to section 5.4 this is the only way in which
  a finished dialogue in which the engine has not faulted leaves the queue undrained (`FtpServer.FinishedMeansDrainedIff`). Such a server can
  also bring the engine down: by closing the data connection of an upload before the preliminary reply, which leaves no channel to shut down
  at the end of the file (`FtpServer.EarlyCloseFaultsUpload`).
- When an upload's data channel closes, or the upload is broken off, with a read of the local file under way, each sweep removes one
  of the two devices from the dispatcher's list. If the result of the read arrives before the second sweep it reaches an engine without
  a data channel, and the code fails (`FtpSweep.LateReadFaultsIff`).
- The flag and the queue can lose a wakeup: a command queued between the size check and the clear stays there
  (`FtpThreads.LostWakeup`). This is the only way: at rest commands are left in the queue if and only if the last clear of the flag
  came after they had been queued (`FtpThreads.AttendedIff`, `FtpThreads.RestLeavesQueueIff`).
- The documentation says that a null buffer tells a transfer callback that there is no more data. It is told so if and only if the
  data channel closes before the transfer is retired (`FtpEnd.ToldIffClosed`); a refusal with the channel still open, such as 550,
  retires the transfer without a word (`FtpEnd.RefusedIsToldIff`).
- The documentation says that returning false terminates a transfer. The channel is shut down if and only if another chunk comes
  after the refused one (for an upload also at the end of the file): `FtpTransfer.DownloadRun`, `FtpUpload.UploadContent`. The
  refused chunk itself is stored, and stops nothing (`FtpTransfer.RefusalAloneStopsNothing`).
- Data that the server sends during an upload is written into the local file that is being uploaded, and the upload skips as many
  bytes of it, unless the callback has refused (`FtpUpload.ServerDataDisturbs`).
- As long as no file is left over, a chunk that comes before the preliminary reply never reaches a local file, and shuts the channel down if there is a callback that
  has refused a chunk of the transfer before, or if no transfer has begun yet (`FtpTransfer.EarlyChunkIsNotStored`,
  `FtpTransfer.UnwillingAtFirst`). Where opening does not empty the file a shorter download leaves the old end in it
  (`FtpTransfer.OverlayIsExactIff`).
- A refused PROT leaves the next transfer at the level of an earlier one (`FtpProtection.StepKeepsLevelsIff`); on a plain control
  channel a request for a protected transfer is silently ignored (`FtpProtection.PlainChannelStaysClear`).
- What is written reads back line by line if and only if no argument holds a CRLF (`FtpWire.StreamReadsIff`); the API does not look.
- A multi-line reply in which "code space" occurs before the last line is cut in two (`FtpReply.EarlyEndExists`).
- A WebSocket frame without data stalls the stream (`WsProtocol.EmptyFrameStalls`), and an unmasked one is combined with
  bytes that were never set (`WsFrame.EncoderRoundTrip`).
- One sweep deletes one marked observer only, and with duplicates in the list it can delete an observer that is not marked
  (`Subject.SweepsIff`, `Subject.DuplicateIsLost`).
- One read that crosses the end of a context stops the loopback for good (`Dispatcher.ProcessedIffAligned`).

The table in the source is declared with 32 rows and lists 31; the last is empty and matches no state the engine has.

## Model

| member | source | states |
|---|---|---|
| `Framing.CProtocol.constructor` | INCLUDE/CProtocol.hpp:192-200 | A new endpoint has an empty buffer and no messages. |
| `Framing.CProtocol.OnRead` | INCLUDE/CProtocol.hpp:136-154 | One read does to state, buffer, messages and notified frames what `Feed` says for its bytes. |
| `Framing.FeedConcat` | INCLUDE/CProtocol.hpp:136-154 | Two reads are the same as one read of their bytes together. |
| `Framing.ChunkIndependence` | INCLUDE/CProtocol.hpp:136-154 | However the input is cut into reads, the endpoint ends up the same. |
| `Framing.FeedSound` | INCLUDE/CProtocol.hpp:136-154 | The notified frames followed by the buffer are all bytes received; each frame is the shortest complete message at its start; the buffer holds none. |
| `Framing.FeedComplete` | INCLUDE/CProtocol.hpp:136-154 | Conversely, a series of shortest complete messages and an incomplete rest comes out as exactly those messages and that buffer. |
| `Framing.EmitsIffDecomposes` | INCLUDE/CProtocol.hpp:136-154 | For every cut of the input: given frames come out and a given rest stays if and only if the input splits into them. |
| `FtpReply.IsMessageComplete` | INCLUDE/CProtocolFTP.hpp:264-287 | True exactly if the buffer ends in CRLF and the four bytes "code space" turn up at some start, counting what lies past the buffer. |
| `FtpReply.ScanStaysInside` | INCLUDE/CProtocolFTP.hpp:276-282 | With a code that holds no line-end bytes the scan past the end never matters: it agrees with a search inside the buffer. |
| `FtpReply.PrefixIsIncomplete` | INCLUDE/CProtocolFTP.hpp:264-287 | No proper prefix of a reply of RFC 959 section 4.2 is complete unless "code space" occurs before its last line. |
| `FtpReply.ExactIffNotEarly` | INCLUDE/CProtocolFTP.hpp:264-287 | With the scan as written, a single- or multi-line reply is framed as one message if and only if "code space" does not occur before its last line. |
| `FtpReply.RepliesFramed` | INCLUDE/CProtocolFTP.hpp:264-287 | For every series of replies, every cut into reads and whatever lies in memory behind the buffers: exactly those replies come out, nothing left over, if and only if none of them ends early; then the state machine has run on them in order. |
| `FtpReply.EarlyEndExists` | INCLUDE/CProtocolFTP.hpp:276-282 | A legal multi-line reply that ends early. |
| `HttpMessage.Find` | INCLUDE/CProtocolHTTP.hpp:23-33 | The first position at which the pattern occurs, or the length if it does not. |
| `HttpMessage.ParseMessage` | INCLUDE/CProtocolHTTP.hpp:16-85 | The parser's headers are those of the lines, once the blank line and an announced body have arrived, and none before. |
| `HttpMessage.ParseLines` | INCLUDE/CProtocolHTTP.hpp:62-83 | The loop over lines sets the headers line by line, later ones winning. |
| `HttpMessage.ParseLine` | INCLUDE/CProtocolHTTP.hpp:70-81 | A line with ": " sets the header before it to the text after it; any other line sets nothing. |
| `HttpMessage.HeadEndsAtEnd` | INCLUDE/CProtocolHTTP.hpp:27-29 | In a printed request the blank line that ends the head is the last thing and occurs nowhere earlier. |
| `HttpMessage.PrefixHasNoHead` | INCLUDE/CProtocolHTTP.hpp:159-169 | No proper prefix of a request yields a header, so none is taken for a message. |
| `HttpMessage.RequestRoundTrip` | INCLUDE/CProtocolHTTP.hpp:16-85 | Printing a request without a body and parsing it gives back its header fields. |
| `HttpMessage.BodyCompletes` | INCLUDE/CProtocolHTTP.hpp:33-61 | Of all beginnings of a request that announces a body only head and whole body together count as arrived, if the number read is the body's length. |
| `Bytes.BigEndianRoundTrip` | INCLUDE/CProtocolWS.hpp:135-141 | Writing a number that fits in k bytes and reading it back gives the number. |
| `Bytes.BigEndianInverse` | INCLUDE/CProtocolWS.hpp:41-50 | Reading k bytes as a number and writing it back gives the bytes. |
| `Bytes.BigEndianDigit` | INCLUDE/CProtocolWS.hpp:135-141 | Byte i of the written number is its digit of weight 256 to the power of the bytes behind it. |
| `Bytes.XorBit` | INCLUDE/CProtocolWS.hpp:74 | Each bit of the exclusive or is set if and only if exactly one of the two bits is. |
| `WsFrame.ParseMessage` | INCLUDE/CProtocolWS.hpp:17-77 | The payload is the unmasked rest when the buffer is exactly one frame in one of the three length forms, and empty otherwise. |
| `WsFrame.Unmask` | INCLUDE/CProtocolWS.hpp:72-75 | The loop combines byte i with key byte i mod 4 (RFC 6455 section 5.3). |
| `WsFrame.MaskBits` | INCLUDE/CProtocolWS.hpp:72-75 | Bit by bit: set if and only if exactly one of the data's bit and that of key byte i mod 4 is. |
| `WsFrame.DeliversUnmasked` | INCLUDE/CProtocolWS.hpp:17-77 | From the bytes on the wire: behind any header and masking key the payload has the announced length, and each of its bits is the exclusive or of the bit received and the key's. |
| `WsFrame.HeaderLayout` | INCLUDE/CProtocolWS.hpp:25-50 | The frame header that parser and encoder agree on is that of RFC 6455 section 5.2, byte by byte. |
| `WsFrame.MaskTwice` | INCLUDE/CProtocolWS.hpp:72-75 | Masking twice with one key gives the data back. |
| `WsFrame.MaskIsIdentityIff` | INCLUDE/CProtocolWS.hpp:58-75 | Masking leaves the data alone if and only if every key byte it uses is zero. |
| `WsFrame.SendProtocolMessage` | INCLUDE/CProtocolWS.hpp:118-156 | The message written is the final, unmasked text frame of RFC 6455 section 5.2 in minimal length form that carries the data. |
| `WsFrame.WriteLength` | INCLUDE/CProtocolWS.hpp:135-141 | The length bytes are the big-endian length, and the two bytes before them stay. |
| `WsFrame.MinimalFormIsMinimal` | INCLUDE/CProtocolWS.hpp:127-142 | No form that fits the length is shorter than the one chosen. |
| `WsFrame.PayloadOnlyOnWholeFrame` | INCLUDE/CProtocolWS.hpp:17-77 | On any prefix of any frame followed by anything, masked or not, in any length form, the parser yields the payload on the frame itself and nothing elsewhere. |
| `WsFrame.EncoderRoundTrip` | INCLUDE/CProtocolWS.hpp:118-156 | Parsing what was sent gives the data combined with the unset key: the data itself if and only if the key bytes used are zero. |
| `WsProtocol.CProtocolWS.constructor` | INCLUDE/CProtocolWS.hpp:160 | A new endpoint has not shaken hands. |
| `WsProtocol.CProtocolWS.SendServerHello` | INCLUDE/CProtocolWS.hpp:244-278 | Writes the 101 answer for the digest of key and GUID, or fails the assertion when the key is empty. |
| `WsProtocol.CProtocolWS.StateMachine` | INCLUDE/CProtocolWS.hpp:162-201 | First message: handshake; later ones go to the callback. |
| `WsProtocol.CProtocolWS.IsMessageComplete` | INCLUDE/CProtocolWS.hpp:203-227 | An HTTP head before the handshake, a frame with a payload after it. |
| `WsProtocol.FrameIsExactIff` | INCLUDE/CProtocolWS.hpp:215-227 | A frame is framed as one message if and only if it carries data. |
| `WsProtocol.EmptyFrameStalls` | INCLUDE/CProtocolWS.hpp:221-226 | After a frame without data nothing ever completes, whatever follows. |
| `WsProtocol.RequestIsExact` | INCLUDE/CProtocolWS.hpp:203-213 | Before the handshake an upgrade request is framed as one message with its header fields. |
| `WsProtocol.UpgradeThenFrames` | INCLUDE/CProtocolWS.hpp:162-227 | For every cut of an upgrade request with a key and any frames behind it: one handshake answer, then exactly the payloads before the first frame without data, in order; everything else stays in the buffer, which is empty if and only if every frame carries data. |
| `WsProtocol.MaskedPayloads` | INCLUDE/CProtocolWS.hpp:70-76 | The payloads delivered for masked frames are their senders' data. |
| `WsProtocol.MissingKeyAborts` | INCLUDE/CProtocolWS.hpp:248-250 | The server fails its assertion on a request if and only if the key is missing or empty. |
| `WsProtocol.AnswerSays` | INCLUDE/CProtocolWS.hpp:244-278 | The answer to a request with a key is a head with status 101 and the fields Upgrade, Connection and Sec-WebSocket-Accept, the last holding the digest of key and GUID, and parses as such. |
| `WsProtocol.ClientTakesAnyHead` | INCLUDE/CProtocolWS.hpp:168-185 | A client's handshake is done after any head, and it has written nothing. |
| `FtpEngine.RowsFollowRule` | INCLUDE/CProtocolFTP.hpp:199-237 | Every row of the table says what the rule says for its state and digit, so no row hides another. |
| `FtpEngine.RuleHasRow` | INCLUDE/CProtocolFTP.hpp:199-237 | Where the rule says something the table has a row. |
| `FtpEngine.CProtocolFTP.constructor` | INCLUDE/CProtocolFTP.hpp:38-41 | A new engine has an empty queue and the flag set. |
| `FtpEngine.CProtocolFTP.Upload` | INCLUDE/CProtocolFTP.hpp:45-60 | Queues the level, PASV and STOR, then tries to send. |
| `FtpEngine.CProtocolFTP.Download` | INCLUDE/CProtocolFTP.hpp:62-77 | Queues the level, PASV and RETR, then tries to send. |
| `FtpEngine.CProtocolFTP.ListDirectory` | INCLUDE/CProtocolFTP.hpp:79-96 | Queues the level, TYPE, PASV and LIST, then tries to send. |
| `FtpEngine.CProtocolFTP.SimpleCommand` | INCLUDE/CProtocolFTP.hpp:98-151 | Queues one of PWD, CWD, MKD, RMD, QUIT, then tries to send. |
| `FtpEngine.CProtocolFTP.SetDCProtLevel` | INCLUDE/CProtocolFTP.hpp:296-314 | Queues PBSZ and PROT on a TLS control channel, nothing on a plain one. |
| `FtpEngine.CProtocolFTP.SendCommand` | INCLUDE/CProtocolFTP.hpp:289-294 | Writes one command line and changes nothing else. |
| `FtpEngine.CProtocolFTP.ProcessNextCmd` | INCLUDE/CProtocolFTP.hpp:328-355 | With a clear flag and a non-empty queue sends the front, sets the flag and the state its kind names; otherwise changes nothing. |
| `FtpEngine.CProtocolFTP.SkipCommand` | INCLUDE/CProtocolFTP.hpp:316-326 | Pops that many commands, clears the flag, sends the next; too short a queue is a fault. |
| `FtpEngine.CProtocolFTP.StateMachine` | INCLUDE/CProtocolFTP.hpp:239-262 | The scan of the table finds the rule for state and first digit and performs it, or ignores the reply. |
| `FtpEngine.CProtocolFTP.Perform` | INCLUDE/CProtocolFTP.hpp:199-237 | The function of each row, CheckExplicitFTPS among them. |
| `FtpEngine.CProtocolFTP.ProcessLoginEvent` | INCLUDE/CProtocolFTP.hpp:630-642 | A good login clears the flag and sends; a failed one empties the queue and clears the flag. |
| `FtpEngine.CProtocolFTP.ProcessGenCmdEvent` | INCLUDE/CProtocolFTP.hpp:373-384 | Runs the response callback of the front with the reply, and retires the command. |
| `FtpEngine.CProtocolFTP.ProcessPasvResponse` | INCLUDE/CProtocolFTP.hpp:386-413 | Retires PASV, sends the transfer, opens the data channel to the address read; a reply without "(" throws, and one without six numbers behind it counts as a fault. |
| `FtpEngine.CProtocolFTP.OpenDataChannel` | INCLUDE/CDeviceSocket.hpp:115-117 | The data channel is open to its peer; port zero is a fault. |
| `FtpAddress.AddressRoundTrip` | INCLUDE/CProtocolFTP.hpp:386-408 | Whatever is before and behind "(h1,h2,h3,h4,p1,p2", the data channel goes to host h1.h2.h3.h4 and port 256 * p1 + p2 (RFC 959 section 4.1.2), and can be opened if and only if that port is not zero. |
| `FtpAddress.PrintByte` | INCLUDE/CProtocolFTP.hpp:396 | The numbers in that address are written with their decimal digits. |
| `FtpAddress.AddressReads` | INCLUDE/CProtocolFTP.hpp:386-408 | For any six numbers that %d takes, with blanks and signs, behind the first "(": host and port by unsigned 32-bit arithmetic. |
| `FtpSecure.PasvConnects` | INCLUDE/CProtocolFTP.hpp:386-413 | A reply to PASV with the address of section 4.1.2 opens the data channel to exactly that host and port. |
| `FtpEngine.CProtocolFTP.ProcessDataCmdResponse` | INCLUDE/CProtocolFTP.hpp:448-491 | Preliminary reply, completion reply, and close or refusal of a transfer. |
| `FtpEngine.CProtocolFTP.InitializeFileDevice` | INCLUDE/CProtocolFTP.hpp:493-532 | Opens the local file, if there is one, at offset 0; one still open is a fault. |
| `FtpEngine.CProtocolFTP.TriggerDataTransfer` | INCLUDE/CProtocolFTP.hpp:617-628 | Starts the first read of the local file of an upload. |
| `FtpEngine.CProtocolFTP.OnDataChannelRead` | INCLUDE/CProtocolFTP.hpp:539-561 | Offers a chunk to the callback and writes it to the local file, or shuts the channel down. |
| `FtpEngine.CProtocolFTP.OnDataChannelDisconnect` | INCLUDE/CProtocolFTP.hpp:568-578 | Tells the callback and closes both devices; in "xyz" retires the transfer. |
| `FtpEngine.CProtocolFTP.OnFileRead` | INCLUDE/CProtocolFTP.hpp:580-606 | Offers the chunk, writes it to the data channel, starts the next read; or shuts the channel down. |
| `FtpEngine.CProtocolFTP.OnFileDisconnect` | INCLUDE/CProtocolFTP.hpp:612-615 | At the end of the file shuts the channel down. |
| `FtpEngine.CProtocolFTP.OnDataHandshake` | INCLUDE/CProtocolFTP.hpp:454-461 | The transfer starts when the data channel's TLS handshake is done. |
| `FtpEngine.CProtocolFTP.OnControlHandshake` | INCLUDE/CProtocolFTP.hpp:673-688 | After explicit TLS the login goes on with USER. |
| `FtpEngine.CProtocolFTP.OnConnect` | INCLUDE/CProtocol.hpp:121-129 | The state becomes CONNECTED and the callback given to StartClient is called. |
| `FtpModel.StepCalls` | INCLUDE/CProtocolFTP.hpp:45-151 | No event but an API call changes what has been called and queued. |
| `FtpInvariant.CommandsPaired` | INCLUDE/CProtocolFTP.hpp:45-151 | What one API call queues is single commands and adjacent PASV-transfer pairs. |
| `FtpInvariant.PairedConcat` | INCLUDE/CProtocolFTP.hpp:180-187 | Appending whole calls keeps the queue made of single commands and pairs. |
| `FtpInvariant.InitHolds` | INCLUDE/CProtocolFTP.hpp:38-41 | A new engine satisfies the invariant. |
| `FtpInvariant.CallKeeps` | INCLUDE/CProtocolFTP.hpp:45-151 | An API call in any state keeps the invariant, whatever is in flight. |
| `FtpInvariant.FaultsIff` | INCLUDE/CProtocolFTP.hpp:199-262 | A possible event faults if and only if it is fatal: nothing in flight and DATA left over; no address for PASV; a preliminary reply when the local file is still open, missing for an upload, or the protected channel gone; a read or the end of the file without a data channel; a handshake of an upload without its file. |
| `FtpInvariant.StepSound` | INCLUDE/CProtocolFTP.hpp:199-262 | Every possible event that does not fault keeps the control part: front, queue grammar, flag and state fit together, and the data channel is open for a transfer only. |
| `FtpInvariant.RunSound` | INCLUDE/CProtocolFTP.hpp:199-262 | So does every possible run that has not faulted. |
| `FtpInvariant.PasvStateKeeps` | INCLUDE/CProtocolFTP.hpp:222-225 | Every reply to PASV with an address keeps the invariant, and so does every refusal, which pops exactly the PASV and its own transfer. |
| `FtpInvariant.StepKeepsIff` | INCLUDE/CProtocolFTP.hpp:199-262 | In-flight command, queue grammar, devices and absence of faults survive a possible event if and only if it is orderly. |
| `FtpInvariant.AddressOrFault` | INCLUDE/CProtocolFTP.hpp:386-413 | A reply of class 2 to PASV faults if and only if it has no six numbers behind "(", or port zero. |
| `FtpInvariant.UnaskedBreaks` | INCLUDE/CProtocolFTP.hpp:227-231 | A reply of class 1, 4 or 5 with nothing in flight and DATA left over always faults. |
| `FtpInvariant.RunKeeps` | INCLUDE/CProtocolFTP.hpp:199-262 | Every orderly run keeps the invariant: front and pop never meet an empty queue, the front is of the kind the state names. |
| `FtpHistory.RunHistory` | INCLUDE/CProtocolFTP.hpp:316-384 | Over every possible run that has not faulted: all that was queued is what a failed login dropped, what was popped and what is queued, in order; only a transfer behind a refused PASV is popped unsent; the queue was fed by the API calls alone. |
| `FtpHistory.MutualExclusion` | INCLUDE/CProtocolFTP.hpp:316-355 | At every moment of such a run at most one command is sent and not retired, it is the front of the queue, and a clear flag means an empty queue. |
| `FtpHistory.EveryCallerAnsweredOnce` | INCLUDE/CProtocolFTP.hpp:373-384 | Over every possible run that has not faulted each sent and retired single command got one reply, and its caller that reply, once and in order. |
| `FtpHistory.AnswersAreReplies` | INCLUDE/CProtocolFTP.hpp:232-236 | Over every possible run that has not faulted the answers are exactly the replies that came while a single command was in flight. |
| `FtpOrder.SentInOrder` | INCLUDE/CProtocolFTP.hpp:296-355 | Over every possible run that has not faulted, failed logins and refused transfers included, each PROT is sent directly after a PBSZ (RFC 2228 section 3) and each transfer directly after a PASV. |
| `FtpOrder.RunLost` | INCLUDE/CProtocolFTP.hpp:637-641 | Over every possible run that has not faulted a failed login drops whole calls, never a part of one. |
| `FtpWire.WireIsSent` | INCLUDE/CProtocolFTP.hpp:289-355 | At every moment of every run the lines on the wire other than AUTH, USER, PASS and ACCT, read by the rules of section 5.3 of RFC 959 with a table of words of its own, are exactly the commands counted as sent: one line each, in order, same verb, same argument. |
| `FtpWire.StreamReadsIff` | INCLUDE/CProtocolFTP.hpp:289-294 | The bytes written, taken apart at each CRLF, give back the lines written if and only if no argument, name or password holds a CRLF. |
| `FtpCalls.CallIsOneOrder` | INCLUDE/CProtocolFTP.hpp:45-151 | Each call queues exactly one command of its own: STOR, RETR or LIST with its remote file, its local file and its transfer callback, or the single command with its argument and response callback. |
| `FtpCalls.CallFollowsScript` | INCLUDE/CProtocolFTP.hpp:45-151 | The lines a call queues, one by one: PBSZ 0 and PROT C or P on a TLS control channel, TYPE I for a listing, PASV for a transfer, then its own; and a PROT accepted sets the level its line names. |
| `FtpCalls.CallFaultsIff` | INCLUDE/CProtocolFTP.hpp:45-84 | A call fails its assertion, with nothing queued, if and only if a file transfer names no remote file, an upload no local file, or another transfer has nowhere to put its data. |
| `FtpCalls.WireFollowsCalls` | INCLUDE/CProtocolFTP.hpp:45-355 | Over every possible run that has not faulted: what the calls asked for, lines and own commands, is what a failed login dropped, what has gone and what is queued, in the order of the calls; what is on the wire is what was sent of it, in the same order, with each call's own files and callbacks. |
| `FtpCalls.TransferIsItsCalls` | INCLUDE/CProtocolFTP.hpp:340-353 | Whenever a transfer is in flight, its verb, remote file, local file and callback are those of one call, found by counting from the last. |
| `FtpCallbacks.CallsBackWhatIsDue` | INCLUDE/CProtocolFTP.hpp:539-606 | Over every possible run that has not faulted each event makes exactly the callbacks due: chunks and the end of data to the callback of the call whose transfer is in flight, a reply to that of the call whose command is, the connection to the one given to StartClient. |
| `FtpJoin.NotBeforeBoth` | INCLUDE/CProtocolFTP.hpp:448-491 | On every possible run that has not faulted, from any moment of a transfer on: until the server has refused or broken it off, or both completion reply and close have come, it is not retired, whatever else happens. |
| `FtpJoin.ExactlyAtBoth` | INCLUDE/CProtocolFTP.hpp:448-491 | The event with which that has come about retires it exactly once and leaves the data channel closed, and the local file too if it was refused or broken off. |
| `FtpJoin.EndsClean` | INCLUDE/CProtocolFTP.hpp:448-491 | On an orderly run it leaves both devices closed, however the transfer ends. |
| `FtpJoin.BrokenOff` | INCLUDE/CProtocolFTP.hpp:229-231 | A refusal, or a reply of class 4 after the preliminary one, ends the transfer at once. |
| `FtpJoin.LateRefusalStalls` | INCLUDE/CProtocolFTP.hpp:228-229 | A transfer that has begun and gets no reply of class 2 or 4 is never retired, and nothing is ever sent again, on any possible run that has not faulted. |
| `FtpJoin.ClosedAtPasv` | INCLUDE/CProtocolFTP.hpp:386-446 | Whenever PASV is in flight on an orderly run both devices are closed. |
| `FtpTransfer.DownloadContent` | INCLUDE/CProtocolFTP.hpp:539-578 | From the preliminary reply to the event that retires the download, whichever it is: the file holds the chunks up to and including the first one the callback refused, without gap or overlap, over what opening left; the callback was given the same. |
| `FtpTransfer.DownloadRun` | INCLUDE/CProtocolFTP.hpp:539-561 | The same at every moment in between, with the offset equal to the number of bytes stored; and the channel has been shut down if and only if it was before or a chunk has come after a refused one. |
| `FtpTransfer.RefusalAloneStopsNothing` | INCLUDE/CProtocolFTP.hpp:543-560 | The refused chunk is stored, and the channel is not shut down by it. |
| `FtpTransfer.OverlayIsExactIff` | INCLUDE/CProtocolFTP.hpp:503-505 | The file is exactly the bytes received if and only if nothing longer was there before. |
| `FtpTransfer.EarlyChunkIsNotStored` | INCLUDE/CProtocolFTP.hpp:543-560 | With the invariant, a chunk before the preliminary reply is not stored, and shuts the channel down if and only if the callback counts as unwilling. |
| `FtpTransfer.UnwillingAtFirst` | INCLUDE/CProtocolFTP.hpp:170 | Until the first transfer of a session has begun every callback counts as unwilling. |
| `FtpUpload.UploadContent` | INCLUDE/CProtocolFTP.hpp:580-628 | Throughout an upload, as long as the server has sent no data to a willing callback: what was read of the file has been carried and given to the callback, one read is pending until the reads are over, all of the file has been carried at its end, and the channel is shut down exactly by the end of the file or a chunk after a refused one. While the channel is open, if and only if it has sent none. |
| `FtpUpload.UploadRetired` | INCLUDE/CProtocolFTP.hpp:448-491 | Up to and including the event that retires the upload, whichever it is, and with no such data from the server: the channel has carried exactly what was read of the file, all of it if its end was seen; the callback was given the same; the local file is as it was. |
| `FtpUpload.StepUploadsIff` | INCLUDE/CProtocolFTP.hpp:539-606 | One event keeps that up if and only if it is not data from the server to a willing callback. |
| `FtpUpload.ServerDataDisturbs` | INCLUDE/CProtocolFTP.hpp:556-560 | Such data puts the offset past what the channel has carried. |
| `FtpEnd.ToldOnce` | INCLUDE/CProtocolFTP.hpp:568-578 | A transfer that ends by completion reply and close has told its callback exactly once that there is no more data, after all chunks. |
| `FtpEnd.RefusedIsToldIff` | INCLUDE/CProtocolFTP.hpp:474-490 | The callback of a transfer refused or broken off has been told if and only if the data channel closed before that reply. |
| `FtpEnd.ToldIffClosed` | INCLUDE/CProtocolFTP.hpp:448-491 | From any moment of a transfer to its retirement, however it is retired: the callback is told exactly once, last of all, if the data channel closes in between, and not at all otherwise. |
| `FtpDrain.StepLeft` | INCLUDE/CProtocolFTP.hpp:221-237 | No event but a call raises the weight of the queue, and every event that advances a command lowers it, unless the event faults. |
| `FtpDrain.DrainBound` | INCLUDE/CProtocolFTP.hpp:221-237 | A run without calls that has not faulted holds at most as many events that advance a command as the weight; with that many the queue is empty and the flag clear. |
| `FtpServer.FinishedMeansDrainedIff` | INCLUDE/CProtocolFTP.hpp:221-237 | Whatever a server that keeps to section 5.4 of RFC 959 answers, and whatever is called in between, on every possible run that has not faulted: when it has answered everything and the data connection is closed, the queue is empty and the flag clear if and only if no transfer was refused after its preliminary reply. |
| `FtpServer.LateRefusalStrands` | INCLUDE/CProtocolFTP.hpp:228-229 | Every transfer that has begun can be refused late and its data connection closed: a finished dialogue with the queue not drained. |
| `FtpServer.EarlyCloseFaultsUpload` | INCLUDE/CProtocolFTP.hpp:612-615 | An upload on a clear channel whose data connection such a server closes before the preliminary reply: the dialogue is finished, nothing was refused, the engine has faulted and the queue has not drained. |
| `FtpServer.DialogueIsBounded` | INCLUDE/CProtocolFTP.hpp:221-237 | Without further calls such a dialogue, as long as it has not faulted, has at most as many replies and closes as the weight, and one late refusal. |
| `FtpServer.SomethingOwedIff` | INCLUDE/CProtocolFTP.hpp:221-237 | Such a server has a next reply or close on which the engine does not fail if and only if the queue has not drained, in every state of a session that has not faulted. |
| `FtpServer.DrainExists` | INCLUDE/CProtocolFTP.hpp:221-237 | From every session state a server that grants whatever the engine survives drains the queue within the weight. |
| `FtpLogin.SessionIffPassAnswered` | INCLUDE/CProtocolFTP.hpp:630-642 | Over every possible run that has not faulted commands start to move if and only if PASS has been answered with class 1, 2, 4 or 5. |
| `FtpCredentials.LoginIsAsSaid` | INCLUDE/CProtocolFTP.hpp:199-219 | Over every possible run that has not faulted the lines AUTH, USER, PASS and ACCT on the wire are exactly those called for by the events alone, in order and with the configured name and password, and the state is the one that waits for the open answer. |
| `FtpCredentials.CredentialsWaitForTls` | INCLUDE/CProtocolFTP.hpp:202-206 | With explicit TLS a USER, PASS or ACCT line is on the wire if and only if the control channel's handshake has ended or AUTH was refused with class 4 or 5; until then all of the wire is at most AUTH TLS. |
| `FtpCredentials.HandshakeIsNext` | INCLUDE/CProtocolFTP.hpp:673-688 | After class 2 to AUTH the handshake can end, no other event writes anything, and its end writes USER. |
| `FtpCredentials.LoginWritesIff` | INCLUDE/CProtocolFTP.hpp:199-219 | Whatever the TLS mode: USER is written exactly by the greeting of class 2 without explicit TLS, by a refusal of AUTH, or by the end of the handshake; PASS exactly by class 3 to USER; ACCT exactly by class 3 to PASS; AUTH exactly by the greeting with explicit TLS. |
| `FtpLogin.LoginWithoutPasswordStalls` | INCLUDE/CProtocolFTP.hpp:211 | READY with the flag set is a dead end: no possible run from there that has not faulted sends a command. |
| `FtpLogin.UserAcceptedLeadsThere` | INCLUDE/CProtocolFTP.hpp:211 | A reply of class 2 to USER leads into it. |
| `FtpLogin.PreliminaryPasvFaults` | INCLUDE/CProtocolFTP.hpp:222 | A run with a reply of class 1 to PASV that ends at the front of an empty queue. |
| `FtpLogin.PasvSkipFaultsNextIff` | INCLUDE/CProtocolFTP.hpp:222-225 | When PASV and its transfer are all that is queued and PASV is answered with class 1, 4 or 5: the next reply faults if and only if that was class 1 and it is of class 1, 4 or 5. |
| `FtpLeftover.EarlyCloseLeavesFileIff` | INCLUDE/CProtocolFTP.hpp:474-490 | After a close before the preliminary reply, that reply and the completion reply, on a clear channel and for anything but the upload of a missing file: the transfer is retired, and a file device is left behind, breaking the invariant, if and only if there is a local file; after a download with no read pending and at offset 0. |
| `FtpLeftover.StaysOpenIff` | INCLUDE/CProtocolFTP.hpp:474-490 | A local file that is open stays open, and the same one, if and only if the event is not the close of a data channel, nor a refusal or break-off of a transfer. |
| `FtpLeftover.LeftoverFaultsIff` | INCLUDE/CProtocolFTP.hpp:493-532 | Where a file device is left over, the preliminary reply of a transfer faults if and only if the transfer has a local file. |
| `FtpLeftover.NextLocalFileFaultsIff` | INCLUDE/CProtocolFTP.hpp:493-532 | The same after any run from the leftover file on without a close, refusal or break-off. |
| `FtpLeftover.RunStaysAtRest` | INCLUDE/CProtocolFTP.hpp:539-561 | Left behind with no read pending it stays so, the same file with the offset inside it, over any such run. |
| `FtpLeftover.LeftoverIsOverwritten` | INCLUDE/CProtocolFTP.hpp:539-561 | A transfer without a local file that begins over such a file writes the chunks it accepts into the leftover file, from its offset on, at every moment of the transfer. |
| `FtpLogin.ReachesLeftoverFile` | INCLUDE/CProtocolFTP.hpp:474-490 | A run with an early close that leaves a file device with nothing in flight. |
| `FtpLogin.NextDownloadFaults` | INCLUDE/CProtocolFTP.hpp:499 | Continued with another download it fails the assertion that no file is open (a concrete run). |
| `FtpLogin.DownloadSucceeds` | INCLUDE/CProtocolFTP.hpp:199-237 | An orderly run from the connection over the login to a download that leaves its bytes in the local file: the conditions of the theorems about runs can be met. |
| `FtpProtection.CallLevels` | INCLUDE/CProtocolFTP.hpp:296-314 | What a call queues makes its own transfer run at the level asked for, wherever the level stood. |
| `FtpProtection.StepKeepsLevelsIff` | INCLUDE/CProtocolFTP.hpp:306-312 | The transfers queued stay on course for the levels asked for if and only if the event, which does not fault, does not refuse a PROT that would change the level. |
| `FtpProtection.ProtectionFollowsRequest` | INCLUDE/CProtocolFTP.hpp:296-314 | On a TLS control channel, over every possible run that has not faulted and in which no such PROT was refused: whenever a transfer is in flight, the level in force is the one its own call asked for, for any mix of queued calls. |
| `FtpProtection.PlainChannelStaysClear` | INCLUDE/CProtocolFTP.hpp:298-301 | On a plain control channel the level is Clear in every run. |
| `FtpSecure.PreliminaryGuards` | INCLUDE/CProtocolFTP.hpp:448-466 | A preliminary reply that does not fault leaves the open data channel of any transfer, upload, download or listing, under a TLS handshake if and only if the level in force is Protected; then no read of an upload's file is pending. |
| `FtpSecure.HandshakingIff` | INCLUDE/CProtocolFTP.hpp:448-466 | At every moment of every possible run that has not faulted an open data channel is under a handshake if and only if the preliminary reply has come, the level is Protected and the handshake has not ended since the channel was opened; while it is, an upload is not read. |
| `FtpSecure.HandshakesAsAsked` | INCLUDE/CProtocolFTP.hpp:454-461 | On a TLS control channel, with no changing PROT refused: a begun transfer's channel is under a handshake, until that ends, if and only if the transfer's own call asked for Protected. |
| `FtpSecure.PlainNeverHandshakes` | INCLUDE/CProtocolFTP.hpp:298-301 | On a plain control channel no data channel ever is. |
| `FtpThreads.MutualExclusion` | INCLUDE/CProtocolFTP.hpp:316-355 | For any number of threads and every interleaving of test_and_set, size check, send, pop and clear: at most one command sent and not retired, at most one worker holding the flag, first in first out, no pop of an empty queue. |
| `FtpThreads.AttendedIff` | INCLUDE/CProtocolFTP.hpp:330-336 | A step leaves a non-empty queue with a clear flag and nobody about to test it if and only if it clears the flag after commands have come. |
| `FtpThreads.RestMeansEmpty` | INCLUDE/CProtocolFTP.hpp:328-355 | Without such a step, when everything has come to rest the queue is empty and the flag clear. |
| `FtpThreads.RestLeavesQueueIff` | INCLUDE/CProtocolFTP.hpp:328-355 | When everything has come to rest the flag is clear, and commands are left in the queue if and only if the last clear of the flag was such a step. |
| `FtpThreads.LostWakeup` | INCLUDE/CProtocolFTP.hpp:330-336 | A run with such a step: everybody idle, flag clear, a command still queued and never sent. |
| `FtpThreads.UndisturbedNext` | INCLUDE/CProtocolFTP.hpp:328-355 | The steps of one worker run without a break do what ProcessNextCmd does in the engine. |
| `FtpThreads.UndisturbedSkip` | INCLUDE/CProtocolFTP.hpp:316-326 | The dispatcher's pops, clear and next send run without a break do what SkipCommand does in the engine. |
| `FtpSession.SessionIsRun` | INCLUDE/CProtocol.hpp:136-154 | However reads of the control channel are cut and interleaved with other events, and whatever the scan finds behind the buffer each time it looks: the engine has been through those events in order and messages found complete, whose bytes, with the buffer, are all bytes received. |
| `FtpSession.DialogueDrivesEngine` | INCLUDE/CProtocolFTP.hpp:239-287 | A dialogue of replies none of which ends early, read in any chunks, leaves the engine as if the replies had been handed to it one by one. |
| `FtpSession.ClassIsFirstDigit` | INCLUDE/CProtocolFTP.hpp:239-262 | Of a single- or multi-line reply the engine goes by the first digit of its code. |
| `Subject.RemoveAliased` | INCLUDE/CSubject.hpp:306-313 | What std::remove leaves in place when the value to remove is a reference into the range it moves. |
| `Subject.KeptAllIff` | INCLUDE/CSubject.hpp:306-313 | Nothing but the element itself is removed if and only if the next one differs from it and does not come again. |
| `Subject.CSubject.RemoveEventListenerInternal` | INCLUDE/CSubject.hpp:306-313 | The list after the erase, and that it returns the end of the list. |
| `Subject.CSubject.RemoveAllEventListenersInternal` | INCLUDE/CSubject.hpp:300-304 | Empties the list and clears the mark. |
| `Subject.CSubject.ProcessMarkRemoveAllListeners` | INCLUDE/CSubject.hpp:280-298 | One sweep: empty if everything is marked for removal, otherwise the list swept at its first marked observer. |
| `Subject.SweepDeletesFirstIff` | INCLUDE/CSubject.hpp:280-313 | A sweep deletes the first marked observer and nothing else if and only if the next observer differs from it and comes once. |
| `Subject.SweepsIff` | INCLUDE/CSubject.hpp:280-313 | On a list without duplicates k sweeps delete k marked observers; the unmarked ones alone are left, in order, if and only if k is at least their number. |
| `Subject.SweepsDeleteFirst` | INCLUDE/CSubject.hpp:280-313 | On a list without duplicates k sweeps delete exactly the first k marked observers. |
| `FtpSweep.SurvivesSweepsIff` | INCLUDE/CSubject.hpp:273-313 | On such a list a marked observer survives k sweeps if and only if at least k are marked before it. |
| `FtpSweep.LateReadFaultsIff` | INCLUDE/CProtocolFTP.hpp:580-615 | When a close or a break-off has reset data channel and local file, the result of a read still on its way through the loopback makes the code fail if and only if fewer than two sweeps have passed. |
| `Subject.DuplicateIsLost` | INCLUDE/CSubject.hpp:306-313 | A list with a duplicate from which a sweep deletes an unmarked observer. |
| `Subject.CSubject.AddEventListener` | INCLUDE/CSubject.hpp:164-170 | Appends any subject to the list and points it here; a fresh one that is no dispatcher, attached in a tree under a dispatcher, makes a tree under it again. |
| `Subject.CSubject.GetDispatcher` | INCLUDE/CSubject.hpp:209-233 | The walk terminates and returns the dispatcher above, or null where the chain of targets ends. |
| `Subject.WalkFindsDispatcher` | INCLUDE/CSubject.hpp:209-233 | In a tree under one dispatcher whose target is itself the walk finds it from everywhere. |
| `Subject.AttachAll` | INCLUDE/CSubject.hpp:164-233 | After any series of attachments of fresh subjects under a dispatcher whose target is itself, the walk finds it from every one of them. |
| `Dispatcher.CLoopback.OnRead` | INCLUDE/CDispatcher.hpp:90-99 | A read is appended; exactly a context's size is processed and cleared. |
| `Dispatcher.OvershootStalls` | INCLUDE/CDispatcher.hpp:92-98 | Once more than a context has been gathered nothing is processed again. |
| `Dispatcher.ProcessedIffAligned` | INCLUDE/CDispatcher.hpp:90-99 | Every context sent is processed once, in order, nothing left over, if and only if no read crosses the end of a context. |
| `Dispatcher.OneAtATimeProcesses` | INCLUDE/CDispatcher.hpp:299-306 | If each context is queued only after the one before was processed, all are processed, however each is cut into reads. |

## Left out

- WsFrame.SendProtocolMessage: lengths of 2^63 and more, which RFC 6455 section 5.2 does not allow, are excluded.
- WsFrame.ParseMessage: the loop counter of the source is a 32-bit int and the sum of index and length a `size_t`; payloads of 2^31
  bytes and more and lengths near the wrap-around are not modelled as such (the model counts in unbounded integers).
- HttpMessage.ParseMessage: the number behind "Content-Length" is a parameter; that `stoi` can throw on it, or read a negative one,
  is not modelled.
- HttpMessage.BodyCompletes: that the number read is the body's length is presumed, for the same reason.
- WsProtocol.AnswerSays: the digest is presumed to hold no line break and no "Content-Length", as Base64 text does not.
- HttpMessage.RequestRoundTrip: requests that hold the text "Content-Length" are excluded; the source reads that number without its
  last digit.
- FtpThreads.MutualExclusion: each append, size check, send and pop is one step, although the source does not lock the list against
  the dispatcher; data races inside `std::list` are not modelled.
- FtpAddress.AddressRoundTrip: a number in the reply to PASV that does not fit into 32 bits is undefined for `sscanf`; the model treats
  it as missing. A port above 65535 is connected to modulo 65536, which the model leaves to the socket.
- FtpEngine.CProtocolFTP.ProcessPasvResponse: with fewer than six numbers in the reply the code reads variables that were never set, which
  is undefined; the model counts it as a fault and says nothing of what follows.
- Subject.CSubject.AddEventListener: attaching an ancestor makes a cycle in which the walk never ends; nothing is claimed of it.
- `CProtocolFTP::Stop`, a data channel that fails to connect, and the loss of the control connection: the code leaves listeners and
  the state of the transfer as they are.
- FtpSweep.LateReadFaultsIff: the pending read of a local file is the one late event modelled, and no event comes between the reset and it; a
  device that has been reset can also deliver data or a close that was already on its way.
- Observers, locks and lifetimes in one picture: notifications are sequential steps, the per-subject mutexes are not modelled.
- `lvl == "C"` in the PROT callback compares pointers; it is modelled as comparison of texts, which is what is meant.
- On Linux the local file is read and written at the descriptor's own position and the offset is ignored; the model uses the offset, which
  is the same as long as the transfer is the only user of the descriptor.
- A local file that cannot be opened, other than one missing for an upload; writes to a device that is not connected.
- `pop_back` on an empty line of an HTTP message is undefined in C++; the model leaves the line empty.
- `MessageDigest`, `Base64Encode`, `BTOL`, `LTOB` are defined in another repository, which is not part of this model; the last two are taken as
  big-endian conversions, the first two as an arbitrary function.
- The client side of the WebSocket handshake and the checks of both hellos, which the source has as stubs.
- OpenSSL, sockets, epoll and completion ports, the property map, `CLogger`, `CListener` and the test programs.
- The names in the documentation's example (`FTPS::Explicit`, `Start`) differ from those in the code; the model follows the code.
