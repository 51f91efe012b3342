# Verification of a SIP camera recorder

The recorder accepts calls from IP cameras over SIP, stores their RTP payloads in files, forwards them
to live viewers and takes its orders from a message broker. This project models that behaviour in Dafny
and proves what holds of it over every run. `dafny verify dfyconfig.toml` checks it all.

## How it is built

The files follow the program's components. Where the program changes state in place there is a class
whose methods do what the code does, and a function on values that says what each method amounts to;
the methods are proved to do what the functions say, and everything else is proved about the functions.

| file | component |
|---|---|
| `Text`, `Keys`, `FileNames`, `Bytes`, `Wrappers` | printed numbers, camera keys, file names, bytes, values that may be missing |
| `Recorder`, `Disk`, `StreamFiles` | one camera's recorder: payload-level specification, the directory it leaves, the class with buffer and short writes |
| `LiveClients` | forwarding to a viewer in packets |
| `Channels`, `ChannelRuns`, `StreamMgr` | the channel map: specification, theorems over runs, the class |
| `Archive` | the one directory tree all StreamFiles write to |
| `Registry`, `Keepalive`, `Registrations`, `SipApp` | calls and status reports, when a camera counts as gone, pending registrations, the class |
| `Application` | both halves together, from start to shutdown |
| `Dispatch` | the callback map of the message interface |
| `SdpAnswer`, `Ptz` | the answer to an SDP offer, pan-tilt-zoom commands |
| `Locks`, `LockPaths` | threads, locks and joins; the code paths of the application |
| `Witnesses` | for every failure that a theorem delimits, a run from the start that meets it |

A reader in a hurry starts with `ChannelRuns.ShutdownWritesAll`, `Archive.EverythingReadsBack`,
`Application.Shutdown`, `Recorder.RotationInBytes`, `Registry.RunInv`, `Keepalive.PassByClock`,
`Registrations.AnswersTraced`, `ChannelRuns.ViewerServed`, `Dispatch.EachHandler`, `LockPaths.NoDeadlock` and
`SdpAnswer.LegalAnswer`. These say in literal names and numbers, or in terms of the events of a run, what the
handlers amount to; where a theorem speaks of a function that a handler shares, another one says what that
function yields.

## What is assumed

- Each handler is one atomic step, except that drawing a serial, storing a prepared response and
  publishing the request are three steps with anything in between (`Registrations`), and that the lock
  model interleaves single lock operations.
- `fopen` and the clock are an arbitrary function of StreamFile and attempt (`Recorder.World`): every
  statement holds for all of them. `fwrite` takes any positive part of what it is offered.
- `pjsip_inv_terminate` runs the disconnect handler before it returns.
- Whether a call's media start, its INVITE goes out, or a live client connects is a parameter of the
  event; configuration values are constants or parameters.
- A size limit in megabytes is a real number. `ftell`'s result goes through an `int` of 32 bits, which
  is modelled (`Recorder.Size32`), and so are the serial counter and the cut of camera keys at 62
  characters.

## What turned out not to hold

Where the code does not do what one would expect of it, the project says exactly when it does, and
`Witnesses` has a run that fails.

- Renaming a camera onto a registered one drops that one's StreamFile with whatever is buffered, and a
  chunk is dropped whole if its file cannot be opened: the files hold everything at shutdown if and only
  if no rename met a non-empty buffer and every `fopen` with something to write succeeded
  (`ChannelRuns.ShutdownWritesAll`, `Application.Shutdown`, `Recorder.DrainedRun`; runs that fail are
  `Witnesses.RenameLosesPayload` and `Witnesses.ChunkDropped`).
- Renaming a camera that has a call takes the channel from under the call: payloads find their channel
  throughout if and only if that never happens (`Application.CoveredThroughout`,
  `Witnesses.RenameTakesChannel`).
- A call whose media do not start leaves its channel behind, and so does every call over TCP
  (`Application.ExactThroughout` has the exact condition; `Witnesses.FailedCallLeavesChannel`,
  `Witnesses.TcpCallLeavesChannel`).
- A name used twice truncates the first file, as when a camera is removed and called again within one
  second: all recordings of all StreamFiles survive if and only if no name is used twice
  (`Archive.AllSurvive`, `Witnesses.NameUsedTwice`). Names carry local time, which also repeats when
  clocks are set back.
- A size limit that does not fit a 32-bit `int` of bytes is never met (`Recorder.RotationReachable`,
  `Witnesses.LimitNeverMet`).
- Serials come round after 2^32 - 1 draws. Then the keepalive thread may report one camera as gone and
  hang up another: registry and reports agree throughout a run if and only if no pass does that
  (`Registry.RunInv`, `Witnesses.WrongCameraHungUp`). And a prepared response may not be stored
  (`Registrations.RunAnswers`, `Witnesses.ResponseNotStored`).
- Cameras whose addresses differ in `:` against `_` share file names (`FileNames.PrefixCollides`),
  slashes in a URL or a format and underscores in a format make other names meet
  (`FileNames.SlashInUrl`, `FileNames.SlashInFormat`, `FileNames.UnderscoreInFormat`), and addresses of 62
  characters share keys (`Keys.LongAddressesCollide`).
- Appending the answered direction overruns a full attribute array in one case
  (`SdpAnswer.RoomyExactly`, `Witnesses.AnswerOverruns`).
- A comment in the keepalive thread speaks of 30 seconds (sipapp.cpp:423); the code uses the configured
  timeout, 120 seconds if that is negative, and the model follows the code. The buffer that
  stream_file.cpp:69 calls circular is not.

## Model

| member | source | states |
|---|---|---|
| Keys.IpcUrlInjective | stream_mgr.h:54-59 | two cameras whose "address:port" fits 62 characters have one key exactly if address and port agree, whatever characters the address has |
| Keys.LongAddressesCollide | stream_mgr.h:54-59 | keys that are cut off can meet: from 62 characters of address on, the port makes no difference |
| Keys.KeyText | stream_mgr.h:54-59 | a key is the text "address:port" or the first 62 characters of it, and is whole exactly if that text has at most 62 |
| Keys.KeySpelled | stream_mgr.h:57 | and reads "10.0.0.1:5060" for that address |
| Text.DecimalInjective | stream_mgr.h:57 | printed integers determine the integer, sign included |
| Text.DecimalReads | stream_mgr.h:57 | they read back as that integer, with one minus sign in front of a negative one |
| FileNames.SameName | stream_file.cpp:104-134 | among URLs without '/' and formats without '/' and '_', two recordings get one file name exactly if directory, local time to the second, effective extension and the URL up to ':' against '_' agree |
| FileNames.SlashInUrl | stream_file.cpp:130-131 | a URL with a slash can make the names of two cameras meet |
| FileNames.SlashInFormat | stream_file.cpp:110-131 | and so can a format with a slash |
| FileNames.UnderscoreInFormat | stream_file.cpp:110-131 | or with an underscore |
| FileNames.StampTextInjective | stream_file.cpp:120-129 | the padded date and time in a name determine the local time to the second |
| FileNames.StampReads | stream_file.cpp:120-129 | and read back as year, month, day, hour, minute and second, in this order, the last ten digits two by two |
| FileNames.NameText | stream_file.cpp:104-134 | a name is directory, slash, URL with underscores for colons, underscore, time, dot and format, or "ps" without one |
| FileNames.PrefixInjective | stream_file.cpp:115-116 | among URLs without '_' the colon replacement loses nothing |
| FileNames.PrefixCollides | stream_file.cpp:115-116 | with '_' it does: a concrete pair of cameras |
| Recorder.Conservation | stream_file.cpp:32-102 | over every run the closed files, dropped chunks, open file and buffer hold exactly the payloads accepted, each whole, once and in order, whatever opens fail |
| Recorder.StepKeepsAll | stream_file.cpp:72-102 | one call adds exactly its payload, also when camera and directory change in it and the buffer overflows |
| Recorder.RunSound | stream_file.cpp:41-102 | over every run: no file holds a payload of another camera or directory than those it is named from; under one limit every file closed by size is at least the limit and less than a chunk above it, every other file is below; reports are exactly the files closed by size, in order, with their true size, camera and directory |
| Recorder.StepSound | stream_file.cpp:72-102 | every single call keeps that invariant |
| Recorder.SoundFromStart | stream_file.cpp:12-23 | and a new StreamFile has it |
| Recorder.RotationInBytes | stream_file.cpp:41-66 | in bytes, over every run of a new StreamFile under one limit: an open file is below limit times 1048576 bytes, a file closed by size is at least that and less than one chunk above, one closed otherwise is below, and the reports are the files closed by size with their true sizes; the buffer has the configured size or 32000 bytes |
| Recorder.FlushTells | stream_file.cpp:41-66 | one chunk: which file it goes to, under which name, when it is dropped, and when and how the file is closed and reported |
| Recorder.SettingsTaken | stream_file.cpp:72-84 | after a payload the StreamFile has the camera, directory, format, limit and plan that came with it |
| Recorder.WritesOnlyWhenFull | stream_file.cpp:85-100 | a payload of the same camera and directory is only buffered exactly if it fits; otherwise the buffer is written out, the payload too if it is larger than the buffer, and files are closed only by size |
| Recorder.ClearSound | stream_file.cpp:32-39 | draining leaves neither buffer nor open file, so nothing of the previous camera can reach the next file |
| Recorder.RotationReachable | stream_file.cpp:55-62 | some file size meets the limit exactly if the limit is positive and fits a 32-bit int of bytes |
| Recorder.KeptOrLost | stream_file.cpp:48-65 | the closed files of a log hold every chunk it lists exactly if it lists no non-empty one as dropped |
| Recorder.StepLoses | stream_file.cpp:41-102 | a call drops nothing exactly if each fopen it needs for something to write succeeds |
| Recorder.RunLoses | stream_file.cpp:41-102 | over every run: nothing is dropped if and only if every such fopen succeeds, whatever the clock and the failures in between |
| Recorder.InFilesIsTape | stream_file.cpp:41-102 | the files hold everything taken exactly if nothing was dropped and nothing is buffered |
| Recorder.BytesTell | stream_file.cpp:85-100 | they hold all bytes exactly if they hold all payloads |
| Recorder.DrainedRun | stream_file.cpp:25-39 | after the destructor the files hold the accepted payloads in order if and only if every fopen of the run and of the destructor that had something to write succeeded |
| Disk.SurvivesIfDistinct | stream_file.cpp:147 | as many files are found on disk as were opened exactly if no name was used twice, and then each with its own contents |
| Disk.SurvivesUnlessClash | stream_file.cpp:104-150 | plainly named recordings, of any cameras and StreamFiles, all survive exactly if no two agree in directory, local time to the second, extension and URL up to ':' against '_' |
| Disk.RecordingComplete | stream_file.cpp:25-150 | one StreamFile alone on the disk: if every fopen with something to write succeeds and no name repeats, reading its files in order gives back every accepted byte |
| Disk.AnyOrder | stream_file.cpp:147 | the order in which files are opened makes no difference to whether all survive, nor to what is then found |
| Archive.AllSurvive | stream_file.cpp:104-150 | all StreamFiles of the manager together: every recording survives exactly if no name is used twice, and for plain names exactly if no two recordings clash |
| Archive.EachReadsBack | stream_file.cpp:104-150 | and then each StreamFile's names give back what its files hold, whatever the others wrote |
| Archive.EverythingReadsBack | stream_mgr.cpp:39-58 | end to end after any run and a shutdown, if no name was used twice: reading every StreamFile's names gives back every accepted byte in order if and only if no rename displaced something buffered and every fopen with something to write succeeded |
| StreamFiles.StreamFile.constructor | stream_file.cpp:12-23 | a new StreamFile with a buffer of the configured size, or 32000 bytes, and nothing in it |
| StreamFiles.StreamFile.Clear | stream_file.cpp:32-39 | the buffer is written out and the file closed |
| StreamFiles.StreamFile.OpenFile | stream_file.cpp:104-150 | a file named from camera, directory and clock, if the system opens it |
| StreamFiles.StreamFile.CloseFile | stream_file.cpp:152-162 | the open file, if any, is finished |
| StreamFiles.StreamFile.PublishFileName | stream_file.cpp:164-177 | one report with plan, camera, directory, name and size, if camera and name are known |
| StreamFiles.StreamFile.WriteAll | stream_file.cpp:49-53 | whatever part each fwrite takes, the file grows by exactly the chunk |
| StreamFiles.StreamFile.CloseIfFull | stream_file.cpp:55-62 | the file is closed and reported once ftell shows the limit |
| StreamFiles.StreamFile.WriteBytesToFile | stream_file.cpp:41-66 | one chunk goes to the open file, to a new one, or nowhere if none can be opened |
| StreamFiles.StreamFile.TakeUrl | stream_file.cpp:74-77 | another camera drains what belongs to the previous one |
| StreamFiles.StreamFile.TakeDir | stream_file.cpp:78-84 | another directory drains what belongs to the previous one, once at most if both change |
| StreamFiles.StreamFile.Fill | stream_file.cpp:85-100 | the payload is buffered, buffered after a flush, or written directly after a flush |
| StreamFiles.StreamFile.WriteStream | stream_file.cpp:72-102 | the byte buffer, the file on disk and the reports are in every case what the payload-level recorder makes of the call |
| LiveClients.PacketsSplit | live_rtp_cli.cpp:146-155 | the packets of a payload concatenate to it; there are ceil(n/1400); all but the last have 1400 bytes and none is empty |
| LiveClients.LiveRtpCli.SendRtp | live_rtp_cli.cpp:138-177 | exactly the packets of a payload of the client's own camera are attempted while it is open, also after errors; the result is that of the last packet |
| LiveClients.LiveRtpCli.Open | live_rtp_cli.cpp:59-115 | the client takes its camera and opens if it can connect; an open one stays as it is |
| LiveClients.LiveRtpCli.Close | live_rtp_cli.cpp:117-133 | the client is closed |
| Channels.StepOwned | stream_mgr.cpp:39-413 | every handler keeps: no two channels share a StreamFile or a client, needLive holds exactly with a client, and that client is open |
| Channels.StepRefines | stream_mgr.cpp:39-413 | every handler of the buffered manager does to the tapes of its channels what the manager without buffers, files and clients does |
| Channels.StepTapes | stream_mgr.cpp:229-329 | a payload is added to the tape of its camera's channel, and to no other, exactly if it is not empty, the directory is set and the flag is not zero |
| Channels.StepRoutes | stream_mgr.cpp:89-413 | and the channels' StreamFiles, viewers, directories, flags, limits, plans and formats are those that manager was given last |
| Channels.RenameOwned | stream_mgr.cpp:385-400 | a rename, also onto a registered camera, keeps StreamFiles and clients unshared |
| Channels.StepAsks | stream_mgr.cpp:97-140 | a step makes at most one channel, for a camera that had none, and asks for that camera's plan exactly then |
| ChannelRuns.RunRefines | stream_mgr.cpp:39-413 | over every run of adding, planning, renaming, removing, viewing and payloads: each StreamFile's files, dropped chunks and buffer hold exactly its channel's tape, in order |
| ChannelRuns.RecordedAsSet | stream_mgr.cpp:305-329 | a payload that is recorded leaves its StreamFile with its camera and with the directory, format, limit and plan the camera was given last |
| ChannelRuns.RunHolds | stream_mgr.cpp:39-413 | end-to-end conservation: files and buffers alone hold every tape in full if and only if every fopen with something to write succeeded |
| ChannelRuns.StepLosesNone | stream_mgr.cpp:39-413 | a handler drops nothing exactly if the fopens of the StreamFiles it writes to or drains succeed |
| ChannelRuns.RunLosesNone | stream_mgr.cpp:39-413 | over every run |
| ChannelRuns.RunHealthy | stream_mgr.cpp:39-413 | labels, rotation bound, exact reports and ownership hold over every run of the manager, each StreamFile with a size limit of its own or none that is known |
| ChannelRuns.InitHealthy | stream_mgr.cpp:26-37 | and at its start |
| ChannelRuns.RunFromStart | stream_mgr.cpp:39-413 | so labels, reports and ownership are right after every run from the start, without any condition |
| ChannelRuns.StepSettled | stream_mgr.cpp:285-301 | a step leaves StreamFiles without a channel empty exactly if they were and it displaces no camera with something buffered |
| ChannelRuns.StepMapped | stream_mgr.cpp:285-400 | exactly removal, displacement by a rename and shutdown take a StreamFile from its channel |
| ChannelRuns.RunSettled | stream_mgr.cpp:285-400 | over every run, likewise if and only if |
| ChannelRuns.ShutdownWritesAll | stream_mgr.cpp:39-58 | after uninit the files hold every tape in full if and only if no rename of the run displaced a camera with something in its buffer and every fopen with something to write, in the run and in uninit, succeeded |
| ChannelRuns.StepHands | stream_mgr.cpp:242-260 | a client gets the packets of a payload exactly if the payload's camera has that client and is the one it was opened for |
| ChannelRuns.StepCloses | stream_mgr.cpp:271-301 | a client is closed exactly when its camera is removed, or its viewer leaves or is replaced; a viewer who connects brings one that is open and has sent nothing |
| ChannelRuns.ViewerServed | stream_mgr.cpp:229-262 | from the moment a viewer connects, over every run that does not remove, rename or re-view the camera, the client sends the packets of every payload of that camera, in order, and nothing else |
| ChannelRuns.OnlyOwnCamera | live_rtp_cli.cpp:145 | over every run, renames included, whatever a client sends was cut from payloads of the camera it was opened for |
| StreamManager.StreamMgr.constructor | stream_mgr.cpp:26-37 | a manager without channels |
| StreamManager.StreamMgr.CreateChannel | stream_mgr.cpp:97-110 | a new channel with its own StreamFile that records nothing yet, and a request for its plan |
| StreamManager.StreamMgr.PublishSdsInfo | stream_mgr.cpp:334-341 | one request more, if the camera has a URL |
| StreamManager.StreamMgr.AddIpcChannel | stream_mgr.cpp:89-111 | a new channel whose plan is asked for, or another format for the one that is there |
| StreamManager.StreamMgr.AddIpcChannelByIpcUrl | stream_mgr.cpp:121-141 | the live client joins the camera's channel, a new one whose plan is asked for if need be |
| StreamManager.StreamMgr.SetFmt | stream_mgr.cpp:143-152 | only a registered camera's format changes |
| StreamManager.StreamMgr.TranslateRtpPayload | stream_mgr.cpp:229-262 | the payload goes to the recorder, then to the live client, and the result tells whether it was accepted |
| StreamManager.StreamMgr.SaveStreamToFile | stream_mgr.cpp:305-329 | the StreamFile takes the payload exactly if it is not empty, the directory is set and the flag is not zero; all four results |
| StreamManager.StreamMgr.ForwardPayload | stream_mgr.cpp:256-258 | the client is handed the payload if the channel wants live data |
| StreamManager.StreamMgr.RemoveLiveCliByIpcUrl | stream_mgr.cpp:271-283 | the camera's client is closed and dropped |
| StreamManager.StreamMgr.RemoveIpcChannel | stream_mgr.cpp:285-301 | the channel goes, its buffer is written out and its client closed |
| StreamManager.StreamMgr.OnPlan | stream_mgr.cpp:349-376 | directory, limit, flag and plan of a registered camera |
| StreamManager.StreamMgr.OnPlanDel | stream_mgr.cpp:377-384 | recording stops, the buffer stays |
| StreamManager.StreamMgr.OnIpcChange | stream_mgr.cpp:385-400 | the channel moves to the new key; one that was there is dropped as it is |
| StreamManager.StreamMgr.OnSdsChange | stream_mgr.cpp:401-410 | another directory |
| StreamManager.StreamMgr.MakeLiveRtpClient | sipapp.cpp:792-803 | the manager's share: a new client, on a port that is given, replaces the old one if it can be connected; otherwise the camera has none |
| StreamManager.StreamMgr.Uninit | stream_mgr.cpp:39-58 | every channel's StreamFile is drained, whatever the order of the map, and no channel is left |
| Registry.First | sipapp.cpp:958-1006 | a search finds the first call with the property, or none exactly if none has it |
| Registry.RunInv | sipapp.cpp:402-1053 | over every run: in every state calls are pairwise different cameras, each with a session that points back to it, and for every camera the latest report says 1 exactly if it is listed, if and only if no keepalive pass reports one call as stale and removes another |
| Registry.WindowedInv | sipapp.cpp:346-437 | in particular as long as no call lives through 2^32 - 1 serials |
| Registry.RunCautious | sipapp.cpp:402-1053 | over every run whatever, no camera was last reported as present that is not listed |
| Registry.StepInv | sipapp.cpp:402-1053 | every MESSAGE, disconnect, confirmation, media update, keepalive pass and draw keeps that exactly if it is not such a pass |
| Registry.InitInv | sipapp.cpp:143-157 | and it holds at the start |
| Registry.MessageInv | sipapp.cpp:577-605 | a known camera is refreshed and an unknown one listed, or not if its call fails, without two entries for one camera |
| Registry.AliveInv | sipapp.cpp:402-437 | a keepalive pass removes the first expired call and no other exactly if that call is the first with its serial, and then all agrees although a stale call is reported twice |
| Registry.AliveAgreesExactly | sipapp.cpp:402-437 | a pass keeps registry and reports in agreement exactly if the call it reports as stale, if any, is the first with its serial |
| Registry.PassesDrain | sipapp.cpp:402-437 | at one instant, as many passes as there are expired calls leave exactly those calls that were heard and seen within 1000 times the timeout in milliseconds, 120 seconds for a negative one, if and only if no expired call stands behind an unexpired one with its serial |
| Registry.PassRemoves | sipapp.cpp:402-437 | a pass removes the first call that has the serial of the first one not heard or not seen within 1000 times the timeout in milliseconds, and nothing if there is none |
| Registry.SerialsDistinct | sipapp.cpp:346-356 | any 2^32 - 1 consecutive serials differ and the next repeats the first, although calls, registrations and commands share the counter |
| Registry.StepReports | sipapp.cpp:402-1053 | which reports each event makes, in which order: a refreshed or listed camera is reported as present, a call that goes as gone, a stale one twice |
| Registry.StepDraws | sipapp.cpp:346-356 | which events draw a serial and which take a port, and that a call that is made has the serial and the port that were next |
| Keepalive.StepClocks | sipapp.cpp:402-1053 | one event sets the first time of a call exactly if the camera sends a MESSAGE or its session is confirmed, and the second exactly if it is called, a packet comes in or media come up for the first call with the serial |
| Keepalive.ClocksTell | sipapp.cpp:402-437 | after every run the two times of a listed call are when its camera last spoke and when its media last showed in that run |
| Keepalive.PassByClock | sipapp.cpp:402-437 | after every run, a pass takes no call off the list if every camera spoke and streamed within 1000 times the timeout in milliseconds, 120 seconds for a negative one; otherwise the first call with the serial of the first camera that did not |
| Keepalive.FreshStays | sipapp.cpp:402-437 | so a camera that did stays listed unless another listed call has its serial |
| Keepalive.PassesByClock | sipapp.cpp:402-437 | and while no call has lived through 2^32 - 1 serials, repeated passes at one instant take exactly those off that did not |
| Registry.HangupEmpties | sipapp.cpp:361-388 | shutdown ends with an empty list, each listed call reported once, in order |
| Registry.HeadGoes | sipapp.cpp:935-953 | terminating the head removes the head, whatever its serial |
| Registry.IndexFinds | sipapp.cpp:994-1006 | a call's serial finds that call while no serial is 2^32 - 1 draws old |
| Registry.ByUriIsByAddress | sipapp.cpp:958-989 | looking a camera up by the text "address:port" finds the call that looking up address and port finds |
| Registry.StepPorts | sipapp.cpp:817-824 | with a port step of at least two every event keeps the RTP and RTCP ports of all calls and live clients so far pairwise disjoint, and those of listed calls among them |
| Registry.RunPorts | sipapp.cpp:817-824 | over every run |
| Registry.RunTakesPorts | sipapp.cpp:817-824 | the n-th port taken is the first one and n steps more, for calls and live clients alike |
| Registry.PortsFit | sipapp.cpp:817-824 | the RTP and RTCP ports of every call and live client of a run are at most 65535 as long as the first port and all steps taken fit below 65536 |
| Registrations.RunAnswers | sipapp.cpp:668-752 | over every interleaving: no response is sent unasked, twice, to another address or with a status that does not match the backend's code; and every published request is still stored or has been answered if and only if no serial comes round while it is outstanding |
| Registrations.AnswersFromStart | sipapp.cpp:668-752 | so for every run from the start of the program: every answer has status 200 if the backend said 200 and 401 if not |
| Registrations.AnswersTraced | sipapp.cpp:652-752 | over every run from the start every answer sent goes to the address that registered and drew the serial, after the backend answered that serial with the code it says |
| Registrations.DoCore | sipapp.cpp:668-752 | every step keeps the safety part: what is stored or answered was asked, no number is answered twice, the status is 200 exactly for code 200 |
| Registrations.DoForgets | sipapp.cpp:673-675 | a step forgets a request exactly if it stores under a serial that is still outstanding |
| Registrations.RecentIsFree | sipapp.cpp:346-356 | with fewer than 2^32 - 1 serials drawn since any outstanding request the drawn serial is free |
| Registrations.SecondAnswer | sipapp.cpp:738-751 | an answer to a serial nobody waits for changes nothing, a second answer included |
| SipApplication.IpcCall.constructor | ipc_call.cpp:14-22 | a call without session, active since now |
| SipApplication.SipApp.NewCall | ipc_call.cpp:14-32 | a call on the next port with the next serial, whose construction adds the camera's channel |
| SipApplication.SipApp.CreateSn | sipapp.cpp:346-356 | the n-th serial is n mod (2^32 - 1): the counter itself never shows UINT_MAX |
| SipApplication.SipApp.CreateNextRtpPort | sipapp.cpp:817-824 | ports in steps |
| SipApplication.SipApp.FindCallByAddrAndPort | sipapp.cpp:976-989 | the first call of the address and port, or null |
| SipApplication.SipApp.FindCallByUri | sipapp.cpp:958-974 | the first call whose formatted address is the text, or null |
| SipApplication.SipApp.FindCallByIndex | sipapp.cpp:994-1006 | the first call with the serial, or null |
| SipApplication.SipApp.ReportIpcStatus | sipapp.cpp:1414-1423 | one report more |
| SipApplication.SipApp.DestroyCallMedia | sipapp.cpp:935-953 | the first call with the index is reported as gone, stopped and removed, no other; over UDP its channel goes |
| SipApplication.SipApp.StopCall | ipc_with_pjmedia.cpp:115-121 | a call over UDP asks for its channel to be removed, one over TCP does not |
| SipApplication.SipApp.Unlist | sipapp.cpp:941-946 | one call is reported, stopped and taken out of the list |
| SipApplication.SipApp.OnDisconnected | sipapp.cpp:1008-1024 | a session that ends takes its call with it |
| SipApplication.SipApp.OnConfirmed | sipapp.cpp:1024-1027 | a confirmed session renews the call's time |
| SipApplication.SipApp.OnMediaUpdate | sipapp.cpp:1058-1076 | media that are up renew the activity of the call with the session's serial and set its channel's format over UDP; a key frame request draws a serial |
| SipApplication.SipApp.OnVideoRxRtp | ipc_with_pjmedia.cpp:270-296 | a packet renews the call's activity, and its payload goes to the channels if it can be decoded |
| SipApplication.SipApp.CheckAlive | sipapp.cpp:402-437 | the loop over the list does what one pass of the specification does, to the list, the reports and the channels |
| SipApplication.SipApp.Hangup | sipapp.cpp:361-388 | the loop that terminates the head ends, with the list empty and every call reported and stopped once, in order |
| SipApplication.SipApp.HandleOtherMessageRequest | sipapp.cpp:577-605 | a MESSAGE refreshes a listed camera or calls a new one, in all four outcomes: list, reports, channels, ports, serials and pending registrations |
| SipApplication.SipApp.Refresh | sipapp.cpp:602-605 | a listed camera gets a new time and a report |
| SipApplication.SipApp.Call | sipapp.cpp:579-601 | a new camera is drawn a port and a serial and gets a channel; it is listed and reported if its INVITE goes out, and stopped if not |
| SipApplication.SipApp.HandleAuthEvent | sipapp.cpp:652-677 | a REGISTER with credentials draws, stores and publishes in this order and touches no call, or is dropped without a sip: address |
| SipApplication.SipApp.StoreResponse | sipapp.cpp:669-675 | the prepared response is stored unless its serial is taken |
| SipApplication.SipApp.OnRegisterResponse | sipapp.cpp:733-752 | the stored response is sent with 200 exactly for code 200, else 401, and forgotten |
| SipApplication.SipApp.MakeLiveRtpClient | sipapp.cpp:790-804 | the viewer's client gets the next port, and the channel manager is asked to replace the camera's client |
| SipApplication.SipApp.RemoveLiveRtpClient | sipapp.cpp:809-815 | the channel manager is asked to drop the camera's client |
| Application.StepKeys | stream_mgr.cpp:39-413 | which cameras have a channel after each handler |
| Application.StepKeysAgree | sipapp.cpp:577-601 | calls keep their channels in every step but one that renames a listed camera, and the cameras with a channel stay exactly the listed ones if and only if the step is tidy |
| Application.CoveredThroughout | stream_mgr.cpp:385-400 | over every run: every listed call has a channel in every state if and only if no rename displaces a listed camera |
| Application.ExactThroughout | ipc_call.cpp:23-26 | over every run: channels and calls match exactly in every state if and only if no call fails to start its media, no viewer asks for an unknown camera, no registered camera is renamed and no TCP call ends or fails |
| Application.CallsAndChannels | sipapp.cpp:547-611 | both, for the registry and the channel map of the whole application after any run from its start, and registry and reports agree unless a keepalive pass removed the wrong call |
| Application.Shutdown | sipapp.cpp:277-388 | any run, then stop and uninit, with payloads and broker messages still coming in while calls are hung up: no call and no channel left, every camera last reported as gone, and the files hold all accepted payloads in order if and only if no rename met a non-empty buffer and every fopen with something to write succeeded |
| Application.PacketRecorded | ipc_with_pjmedia.cpp:296 | a packet of a listed call reaches the tape of its camera's channel, and no other tape, exactly if that channel records |
| Application.CallGetsChannel | ipc_call.cpp:14-32 | a call gives its camera a channel without directory, plan or viewer; one that is there keeps all but its format |
| Application.MediaArePs | ipc_with_pjmedia.cpp:145-213 | media that come up over UDP set the format of that channel to "ps" and change nothing else |
| Application.PlansTakeEffect | stream_mgr.cpp:349-410 | a plan, the end of a plan or another directory changes exactly those settings of exactly that camera |
| Application.ViewersComeAndGo | sipapp.cpp:790-815 | a viewer takes a port, whether its client connects or not, and watches the camera if it does; otherwise nobody does, as when a viewer leaves |
| Application.HangupKeys | sipapp.cpp:361-388 | hanging up over UDP takes the channels of exactly the listed calls |
| Application.EndWrites | sipapp.cpp:935-953 | when a call over UDP ends by a disconnect or a timeout, it leaves the list, its channel goes, and all that the channel accepted is in files if and only if nothing had been dropped and the fopen for what is still buffered succeeds |
| Dispatch.RunMatches | mqinf.cpp:131-201 | over every run of components starting and stopping: each message of the ten decoded topics is handed once to every running component that listens to its topic, in the order they were started, and to no other |
| Dispatch.StepMatches | sipapp.cpp:266-287 | a start or stop keeps, for every topic, the callbacks equal to the running listeners |
| Dispatch.DecodedTopics | mqinf.cpp:156-187 | the ten topics that are decoded, "SDPSendReq" not among them |
| Dispatch.HandedToIs | mqinf.cpp:188-198 | every callback of the list is called once, in order, with the message |
| Dispatch.EachHandler | sipapp.cpp:266-287 | from the start, whatever starts, stops and arrives: five named topics are handled once by the application, if it runs, five by the channel manager, if it runs, and any other message by nobody |
| Dispatch.OneHandler | sipapp.cpp:266-287 | in other words: a message is handled once by the component whose topic it is, if that runs, and by no other |
| Dispatch.MqInf.SetCallbackObject | mqinf.cpp:131-139 | one more callback behind those of the topic |
| Dispatch.MqInf.RemoveCallbackObject | mqinf.cpp:140-154 | the earliest insertion of the object goes, the others keep their order |
| Dispatch.MqInf.OnMessageCallback | mqinf.cpp:156-201 | every callback of a decoded topic is called once, in order; an "SDPSendReq" changes nothing |
| SdpAnswer.RemoveSdpAttrs | sipapp.cpp:1172-1191 | the in-place loop, which steps back at every deletion, ends and leaves exactly the unmatched attributes in order, and returns the first matched one or nothing |
| SdpAnswer.SdpMedia.AnswerInPlace | sipapp.cpp:1139-1162 | one media's attribute array after the three edits |
| SdpAnswer.CreateAnswer | sipapp.cpp:1131-1170 | the answer built on a copy is the specified one, media by media |
| SdpAnswer.LegalAnswer | sipapp.cpp:1131-1170 | for every offer: as many media, no session direction, at most one of the four directions a media, none of the three ICE attributes, all other attributes in order; and the direction in force answers the offered one, sendrecv by sendrecv, sendonly by recvonly, recvonly and inactive by inactive, as section 6.1 of RFC 3264 allows |
| SdpAnswer.MediaShape | sipapp.cpp:1145-1162 | one media's answer: the other attributes in order, then the direction if one has to be said |
| SdpAnswer.RoomyExactly | sipapp.cpp:1156-1160 | the attribute array has room unless it is full and the direction to answer comes from the session |
| Ptz.PtzFrame | sipapp.cpp:1252-1289 | for every int: a command text comes out exactly for the six low bytes, and reads as A5 0F 01, command, speeds in the right bytes and the sum of the first seven mod 256 (Annex A.3 of GB/T 28181-2016) |
| Ptz.PtzBytes | sipapp.cpp:1252-1289 | the eight bytes of each of the six commands, in numbers, and that any other low byte gives no text |
| Ptz.StopFrame | sipapp.cpp:1341 | the stop text follows the same rule |
| Ptz.PrintRead | sipapp.cpp:1277 | bytes printed as hexadecimal pairs read back as themselves |
| Locks.StepInv | sipapp.cpp:282-300 | a thread's step keeps: no lock has two holders, every thread holds locks in ascending order and is well nested |
| Locks.WaitRises | mqinf.cpp:188-198 | whoever is waited for waits, if at all, higher in the order; joins count |
| Locks.NoWaitCycle | mqinf.cpp:188-198 | no circle of waiting threads of any length |
| Locks.SomeoneMoves | sipapp.cpp:289-298 | from any unfinished thread there is a chain of threads, each waiting for the next, to one that can go on |
| Locks.RunsOn | sipapp.cpp:282-300 | in every state reached under any schedule all threads are done and all locks free, or some thread can go on; schedules are finite |
| Locks.JoinedIsDone | sipapp.cpp:289-298 | under any schedule, a thread that is past the point where it waits for another thread finds that thread ended |
| Locks.OpsNested | mqinf.cpp:188-198 | code that is nested in the order runs in it |
| LockPaths.PathOrdered | sipapp.cpp:277-1076 | every code path of every kind of thread takes the seven locks in the one order and waits for threads only where that order allows |
| LockPaths.PathTrace | sipapp.cpp:277-1076 | the lock operations and joins of every path, one after the other |
| LockPaths.NoDeadlock | sipapp.cpp:277-1076 | any number of threads with any lives under any schedule: no deadlock, no wait cycle, and no schedule longer than the programs |
| LockPaths.StopOrdered | sipapp.cpp:277-300 | stop joins the worker and keepalive threads under the stop lock, which neither of them takes |
| LockPaths.MessageOrdered | sipapp.cpp:441-605 | handling a MESSAGE under the request lock |
| LockPaths.HangupOrdered | sipapp.cpp:361-388 | hanging up, with broker messages handled in between |
| LockPaths.DestroyOrdered | sipapp.cpp:935-953 | stopping a call under the call lock: the manager's lock over UDP, two joins over TCP |
| Witnesses.ChunkDropped | stream_file.cpp:63-65 | no fopen succeeds, one payload is accepted, no file holds it |
| Witnesses.LimitNeverMet | stream_file.cpp:55-62 | a limit of two gigabytes is met by no file size |
| Witnesses.RenameLosesPayload | stream_mgr.cpp:393-397 | a run from the start in which a rename displaces a buffered payload, which no file holds after uninit although every fopen succeeds |
| Witnesses.NameUsedTwice | stream_file.cpp:147 | a run from the start in which one camera is called twice within a second and leaves one file of two |
| Witnesses.RenameTakesChannel | stream_mgr.cpp:398-399 | a run in which a listed call loses its channel |
| Witnesses.FailedCallLeavesChannel | sipapp.cpp:586-588 | a run with a channel and no call |
| Witnesses.TcpCallLeavesChannel | sipapp.cpp:941-946 | a run in which a call over TCP ends and its channel stays |
| Witnesses.WrongCameraHungUp | sipapp.cpp:402-437 | a run from the start, once round all serials, after which a keepalive pass reports one camera as gone and hangs up another |
| Witnesses.ResponseNotStored | sipapp.cpp:673-675 | a run from the start, once round all serials, in which a prepared response is not stored |
| Witnesses.AnswerOverruns | sipapp.cpp:1156-1160 | a full attribute array and a session direction: the answer needs one slot more, whatever the array's size |

## Left out

- Renaming a registered camera to itself (stream_mgr.cpp:393-399): the code frees the record it goes on using; the runs considered do not contain it (`Channels.Defined`, the `requires` of `OnIpcChange`).
- StreamManager.StreamMgr.OnIpcChange: requires old and new key of a registered camera to differ, for that reason.
- Application.RunKeys and the other theorems over runs of the manager assume the same (`ChannelRuns.Legal`).
- FileNames.SameName: URLs with slashes and formats with slashes or underscores are excluded; three lemmas show that each exclusion is needed.
- StreamManager.StreamMgr.AddIpcChannelByIpcUrl: takes a client that is open for this camera and `needLive` true, as its only caller passes (sipapp.cpp:801).
- SdpAnswer.SdpMedia.AnswerInPlace: a media whose array would be overrun is excluded, since the code then writes behind it.
- SdpAnswer.CreateAnswer: the array size is a parameter, and offers that would overrun it are excluded; `SdpAnswer.RoomyExactly` says which those are.
- StreamChannel: the program keeps pointers to records in its map, the model keeps the records themselves; two keys that share a record, which no handler produces, are not representable.
- The order in which shutdown visits the channel map is arbitrary in the model; the program's is alphabetical.
- Broker messages handled inside `hangupAll` (sipapp.cpp:383-384) reach the channel manager (`Application.Shutdown`) but not the list of calls: by then the application has unregistered itself.
- A media update or key frame request for a session without a call (sipapp.cpp:1061-1065), which the code does not guard against; listed calls always have one.
- Null callbacks and null keys (mqinf.cpp:133, 142) are not representable; no caller passes one.
- Text of messages: JSON, SIP headers, XML bodies and SDP connection and format lines; responses to a REGISTER without credentials.
- Fixed text buffers other than the camera key: file names, addresses and URIs of any length are kept whole.
- Clock years before 0 or after `int` and keepalive intervals beyond 2^31 milliseconds.
- A PTZ command so large that adding the constants overflows an `int`.
- What is found under a name that two StreamFiles have open at once: `Archive` says that then not all recordings survive, not which bytes remain.
- The volume of a channel, byte and time counters and the getters: stored, never acted upon.
- `setLiveValue`, `getLiveCli` and the second `addIpcChannel`: not called or one-line wrappers.
- Media set-up in `IpcWithPjMedia` and `IpcWithTcp`, RTP and RTCP decoding, socket handling.
- Freeing memory, and races between a call being deleted and another thread still using it.
- Locks inside pjsip, mosquitto and jrtplib; only the application's seven are modelled.
- `ps_codec.cpp`, `objs.cpp`, `config_mgr.cpp`, `sip_log.cpp`, `sipsvc.cpp` and `module_test.cpp`: codecs, marshalling, settings, logging, start-up and tests of older signatures.
