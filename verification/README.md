# Verified models of the terminal's I/O-free cores

An Android terminal keeps its hard logic in cores that do no I/O: streaming
parsers that must not care how their input is cut up, and incremental structures
that must agree with simpler ones.  This project models those cores in Dafny and
proves what they are for.  Each file is one module and stands for one source file
or one part of it; `Text.dfy` holds the string and number notations they share.

| file | core | main result |
|---|---|---|
| `Terminal.dfy`, `Reseed.dfy` | reseed planner and canvas | the short terminal block leaves the very canvas a full rebuild gives, over any run of captures |
| `Pane.dfy` | a pane and the canvas that follows it | a canvas built from a capture and fed the output shows what the pane shows, exactly if the pane was at rest |
| `CanvasSlot.dfy` | the canvas slot behind the seeding machine | over any run the canvas is one capture and what was fed since; exactly when that is all the pane wrote, in order |
| `Http1.dfy`, `HttpHead.dfy` | HTTP/1.1 client | a response is read whole and exactly, however it is fragmented and delayed |
| `BootMark.dfy`, `SessionPump.dfy` | boot-mark stripper, its account, session pump | exactly which streams come out the same however they are cut; output is conserved between recorder, sink, replay and held tail, and the longest newest run that fits waits for a replay |
| `GlyphAtlas.dfy`, `Instances.dfy` | glyph atlas and its instances | slots never overlap and keep their pixels; exactly when the frame drawn from the atlas is the one drawn pixel by pixel |
| `Recorder.dfy` | flight recorder codec | any cut decodes to the events wholly before it; compaction keeps the longest newest run |
| `Mirror.dfy` | offline mirror sync | exactly which runs keep the manifest truthful and leave no stray file; exactly when a clean run makes the mirror the list |
| `CtrlFeed.dfy` | control-mode seeding | the bytes of every printed round give exactly its build, and a build is one round of the newest seed command |
| `OfflineKeys.dfy` | offline key queue and log | replaying the log gives the queue after any run |
| `Conn.dfy` | connection driver and session | the wire carries the wanted messages for every interleaving |
| `SysHist.dfy` | history text codec | the round trip holds exactly for a stated kind of target |
| `Wrap.dfy` | input line wrapper | the greedy breaking is valid and optimal |
| `Catchup.dfy`, `Limiter.dfy` | catch-up throttle, rate limiter | exactly when a frame is drawn and an event passes, and whole-run bounds on both |
| `Sse.dfy` | server-sent-events parser | events arrive whole, however they are cut |

How the models are made:

- A core that updates fields is a class whose methods are proved against functions
  on a value of its state; the properties are then lemmas about those functions,
  most of them over whole runs.
- A `string` or a sequence of bytes stands for bytes; decoding UTF-8 leniently is
  taken to be the identity.  Times are natural numbers handed in by the caller.
  Widths of machine integers are stated where a value is parsed, stored or cast.
- What the outside world does - fragments, time-outs, failing fetches, broken
  files, sends that fail, the order of frames and commands - is a parameter, and
  the results hold for every choice of it.

Where code and comment differ, the code is followed: the header of
`src/ctrl_feed.rs` (lines 29-33) says that output inside the seeding window is
dropped, and lines 197-217 feed it.

Some promises hold only under a condition, which is then stated and proved exactly:

- a stream comes out of the boot-mark stripper differently depending on the cut where an
  introducer of more than 65 bytes is a mark, or holds one or a front part of one behind
  them (`BootMark.AnyCutIff`); for a single mark that is a payload of 50 to 64 bytes in
  front of BEL, or 49 to 64 in front of ESC backslash (`BootMark.SingleMarkAnyCutIff`);
- the canvas falls behind what the pane wrote (`CanvasSlot.RunInStepIff`) by output that
  comes in one stretch with a capture that keeps the canvas, behind it
  (`CanvasSlot.LateIsOvertaken`); by output between a failed seeding and the next claim
  (`CanvasSlot.DroppedForGood`); by output while the channel is closed, which nothing makes
  good if the canvas lies in the view (`CanvasSlot.ViewedStaysShort`,
  `CanvasSlot.ReopenRebuildsIff`); by output queued when a building thread dies
  (`CanvasSlot.DeathIsOvertaken`) or the channel ends; and by another pane being claimed;
  a rebuilt canvas puts an end to it (`CanvasSlot.InstallHeals`);
- a reopened channel joins the half line of the old one to its first line
  (`CanvasSlot.ReopenedAsNewIff`);
- a line of the screen that begins with a percent sign is missing from a capture, ends its
  round, or, if it reads as an output line of the claimed pane, is fed to the canvas as
  output (`CtrlFeed.CaptureIsPrintedIff`, `CtrlFeed.OutputIsHanded`);
- a canvas built while the pane had a wrap pending or an escape sequence open can go on
  otherwise than the pane (`Pane.FollowsIffAtRest`);
- a read broken off by the tick hook can swallow bytes in the states and for the
  buffers named by `Http1.InterruptedReadsLoseNothingIff`;
- names over 255 bytes are cut by the recorder (`Recorder.RoundTripIff`);
- the manifest can lie after it could not be written, after a path that was listed
  twice was fetched and failed, or after a file changed between listing and fetching
  (`Mirror.SyncKeepsCoherentIff`, `Mirror.UnsavedGoesStale`,
  `Mirror.PartialFailureLies`), and a list with one path in two versions never
  settles (`Mirror.CleanRunSettlesIff`);
- a file stays in the mirror that the server no longer has, and is still opened offline,
  after its deletion failed (`Mirror.DeletedFileStays`), after a manifest could not be
  written (`Mirror.UnwrittenLeavesStray`) or was lost, or after a path that was listed
  twice was fetched and failed (`Mirror.StrayAfterIff`, `Mirror.NeverStrayIff`): no sync
  removes it while its path is not listed (`Mirror.StrayForGood`);
- glyphs that meet at a pixel can have another colour than the processor gives where
  their pages do not ascend (`Instances.FramesAgreeIff`, `Instances.FramesDiffer`);
- a log file that is no text, or ends in an open line, and gives nothing back swallows
  the next input (`OfflineKeys.FirstKeySurvivesIff`);
- a history target with other white space, a literal `%20`, or a lone dash does not
  survive (`SysHist.RoundTripIff`);
- a landing at the anchor keeps the rate window, so that bytes from before it can
  count again (`Catchup.AnchorKeepsTheWindow`);
- the limiter does not limit at time 0 (`Limiter.BoundedIffPositive`).

`dafny verify dfyconfig.toml` checks the whole project.

## Model

| member | source | states |
|---|---|---|
| `Terminal.FeedAppend` | src/termview.rs:2442-2453 | Feeding bytes in two calls is feeding them in one: the canvas keeps its parser, so a control sequence may be cut anywhere. |
| `Terminal.KeepLastIs` | src/termview.rs:2505 | The bounded history is the newest 10 000 rows. |
| `Terminal.CharacterIs` | src/termview.rs:2442-2453 | A character from the space up, but DEL, is written at the cursor of a canvas at rest, which moves on or waits to wrap; a control character that is not ESC, CR or LF changes nothing. |
| `Terminal.FeedCup` | src/reseed.rs:94-106 | The bytes of a cursor address move the cursor to that position, clamped to the screen; the digits survive the parameter parser for every number. |
| `Terminal.FeedCnl` | src/reseed.rs:94-106 | The bytes of a next-line function go down as many rows as they say, one for none and for zero, no further than the bottom. |
| `Terminal.FeedMode` | src/reseed.rs:94-106 | Two sequences hide and show the cursor, and every other one but CUP, CNL and EL changes nothing. |
| `Terminal.FeedLines` | src/termview.rs:2428-2446 | A fresh terminal fed lines joined by CR LF shows exactly those lines: the last screenful on screen, the lines above as history, the cursor after the last character. |
| `Terminal.FeedNextLine` | src/termview.rs:2451-2453 | One more line fed to a terminal that shows some lines shows those lines and the new one. |
| `Reseed.LinesOfCapture` | src/reseed.rs:55-62 | The planner's splitting and trimming gives back the lines that a capture text was joined from. |
| `Reseed.ExtendsIffScrolled` | src/reseed.rs:63-82 | The planner accepts exactly the captures that a terminal reaches by scrolling at most one screenful off the old screen and then showing any screen. |
| `Reseed.PlanReseed` | src/reseed.rs:45-108 | The early returns and loops give: rebuild if and only if the new capture does not extend the old; skip only for a fed canvas; otherwise the tail block. |
| `Reseed.AssembleTail` | src/reseed.rs:89-108 | The string-building loops produce the tail block of the specification, byte for byte. |
| `Reseed.TailBytesDenote` | src/reseed.rs:89-108 | The bytes of the block, fed to any terminal, do exactly the list of operations: to the bottom, k line feeds, home, repaint each row, restore and hide the cursor. |
| `Reseed.TailEqualsRebuild` | src/reseed.rs:72-108 | On a canvas that shows the old capture the block leaves the very terminal that building from the new capture gives: history, screen, cursor, pending wrap and parser. |
| `Reseed.CarryIsRebuild` | src/android_app.rs:6646-6735 | On an unfed canvas carrying out whatever the planner says comes to the same as a rebuild. |
| `Reseed.ReconciledIsRebuilt` | src/android_app.rs:6646-6777 | After any number of captures, merged or rebuilt in any mixture, an unfed canvas is the one built from the latest capture alone. |
| `Reseed.SkipKeepsLateLines` | src/reseed.rs:83-88 | Why a fed canvas is not painted: skipping shows a rebuild of the capture with the lines that arrived after it. |
| `Pane.CanvasFollowsPane` | src/termview.rs:2428-2453 | Taking the pane as a terminal: a canvas built from its rows and cursor and fed what it writes from then on has its screen, cursor, history and parser state at all times, if no wrap was pending and no escape sequence open at the capture. |
| `Pane.FollowsIffAtRest` | src/termview.rs:2428-2453 | And only then: on two columns or more screen and cursor are the same for all output if and only if the pane was at rest at the capture. |
| `Pane.PrintedDepicts` | src/tmux_ctl.rs:413-417 | Printing the rows of history and screen without the blanks at their ends is such a capture. |
| `Pane.CapturedIff` | src/termview.rs:2428-2446 | The printed rows with the cursor where it stands, or with a wrap pending anywhere behind the last column, are a capture of the pane, and with no other cursor. |
| `Pane.SkipKeepsLateBytes` | src/reseed.rs:83-88 | Leaving a fed canvas alone comes to a rebuild from the new capture, for any bytes written between the captures and any bytes that arrived after the second. |
| `CanvasSlot.RunIsSound` | src/android_app.rs:6451-6804 | Over any run of captures, failures, lost threads, reopened channels and moves between pool and view the canvas is a rebuild of one capture followed by exactly the bytes fed since - a tail block makes it the canvas of the new capture, and a fed canvas is never painted over. |
| `CanvasSlot.SeamIs` | src/android_app.rs:6545-6804 | What one stretch of input that completes a capture comes to, with the pane's output in front of the end mark and behind it: rebuilt, the output behind waits and is fed to the new canvas first; repainted or skipped, the canvas shows the capture or all output up to the mark, and the output behind stays queued. |
| `CanvasSlot.TookInStepIff` | src/android_app.rs:6545-6557 | All acts of a stretch are worked out before any is carried out. Against a book of all that the pane claimed last has written since the canvas's capture: the slot stays in step if and only if in the stretch no output is handed over behind a capture that keeps the canvas, none of the pane's meets a machine that has not claimed it, none is queued when the channel ends, and no other pane is claimed - or the canvas is repainted after it. |
| `CanvasSlot.RunInStepIff` | src/android_app.rs:6451-6804 | Over any run - stretches of input, threads that deliver or die, seed commands, lost and reopened channels, output that no channel hears, the canvas going to the view and back - all that the pane claimed last has written since the canvas's capture is on the canvas, or in the queue of the canvas being built, in order and at all times, if and only if the run never lapses: no stretch of those kinds, no thread that dies and no channel that ends with output queued for a canvas in place of another, no output while no channel is open. |
| `CanvasSlot.NeverLapsingShows` | src/android_app.rs:6451-6804 | From an empty slot, over any run that never lapses, the canvas is a rebuild of the capture followed by all that the pane has written since, in order. |
| `CanvasSlot.InStepShowsPane` | src/android_app.rs:6451-6804 | A slot in step shows what the pane's own terminal shows: screen, cursor and history after all that the pane has written, if it was at rest when the capture of the canvas was taken. |
| `CanvasSlot.NeverLapsingShowsPane` | src/android_app.rs:6451-6804 | So at the end of any run that never lapses, from an empty slot. |
| `CanvasSlot.RunKeeps` | src/android_app.rs:6451-6804 | Over any run, whatever goes wrong in it, the queue for a canvas that is being built holds all that the pane has written since its capture, in order. |
| `CanvasSlot.InstallHeals` | src/android_app.rs:6459-6507 | After any such run a delivered canvas shows its capture and everything written since: a rebuild ends every lapse. |
| `CanvasSlot.BookIsWrote` | src/ctrl_feed.rs:195-217 | What the book gains over a stretch without a capture is exactly the bytes of that pane's output lines, claimed or not. |
| `CanvasSlot.LateIsOvertaken` | src/android_app.rs:6546-6555 | The input that gets out of step: an end mark and a line of output in one stretch on a kept canvas; that output stays queued and the next line is fed in front of it. |
| `CanvasSlot.UnclaimedIsDropped` | src/android_app.rs:6318-6323 | From a failed seeding to the next claiming header whatever the pane writes is dropped, and neither the canvas nor its stale mark changes. |
| `CanvasSlot.DroppedForGood` | src/android_app.rs:6318-6323 | The input that loses output for good: a seeding fails, the pane writes, and the next round brings a capture that extends the last one. The account moves on, the canvas is as it was, nothing marks it as behind, and the output is not on it. |
| `CanvasSlot.ViewedStaysShort` | src/android_app.rs:6271-6276 | The same for a canvas in the view: the channel is lost, the pane writes, a channel is opened again, and a capture that extends the account leaves the canvas without that output. |
| `CanvasSlot.ReopenRebuildsIff` | src/android_app.rs:6271-6276 | Every first capture after a reopening leads to a rebuild if and only if the canvas lies in the pool, or the account was missing, not trusted, or shorter than the screen. |
| `CanvasSlot.DroppedIsNotRebuilt` | src/android_app.rs:11567-11572 | When the view drops a canvas that was fed, a capture that extends the account builds none: there is no canvas then, and the account moves on. |
| `CanvasSlot.MissedIsRebuilt` | src/android_app.rs:6622-6681 | From output of the claimed pane that met no canvas until a thread delivers one, over any run, every capture has a canvas built. |
| `CanvasSlot.DeathIsOvertaken` | src/android_app.rs:6522-6524 | A building thread that dies with output queued leaves it queued; the next capture that keeps the canvas puts it behind all that was fed since, or behind the capture itself. |
| `CanvasSlot.ReopenedAsNewIff` | src/android_app.rs:6268-6270 | A reopened channel does the same as a new one on every input if and only if the old one did not end inside a line: the half line is kept and joined to the first line of the new channel. |
| `CanvasSlot.QueuedBehind` | src/ctrl_feed.rs:197-217 | While a canvas is being built, exactly what the claimed pane writes is queued, in order. |
| `CanvasSlot.FedInFront` | src/ctrl_feed.rs:197-217 | While none is, exactly what it writes is fed to the canvas, in order. |
| `CanvasSlot.WarmSession.OnOutput` | src/android_app.rs:6545-6557 | The event handler takes the input in, then carries its acts out one after the other. |
| `CanvasSlot.WarmSession.Execute` | src/android_app.rs:6599-6804 | The dispatch on an act moves all fields of the slot as specified, the canvas being in the view or in the pool. |
| `CanvasSlot.WarmSession.Deliver` | src/android_app.rs:6602-6631 | Bytes go to the canvas in the view, or else to the one in the pool; without either nothing is delivered. |
| `CanvasSlot.WarmSession.OnCapture` | src/android_app.rs:6650-6791 | A complete capture: verdict, tail block, queued bytes, account and marks, or a new build. |
| `CanvasSlot.WarmSession.Install` | src/android_app.rs:6457-6507 | A delivered canvas is fed the queue first and takes the place of the old one, in the view while the user scrolls back and in the pool otherwise. |
| `CanvasSlot.WarmSession.TearDown` | src/android_app.rs:6337-6357 | Tearing the channel down drops queue and build and keeps canvas and account. |
| `CanvasSlot.WarmSession.Reopen` | src/android_app.rs:6240-6277 | A new channel distrusts the account of a canvas in the pool, and only of that. |
| `CanvasSlot.WarmSession.GiveUp` | src/android_app.rs:6522-6524 | A dead thread ends the round and leaves the queue. |
| `CanvasSlot.WarmSession.ToView` | src/android_app.rs:2928-2934 | The view takes the canvas out of the pool. |
| `CanvasSlot.WarmSession.ExitOrPark` | src/android_app.rs:6378-6399 | Leaving the view gives the canvas back while a pane is claimed, and drops it otherwise; the account stays. |
| `Http1.FillKeepsStream` | src/http1.rs:118-133 | A fill moves bytes from source to buffer and changes nothing of the stream, whatever fragments and time-outs come. |
| `Http1.ReadLineIsNextLine` | src/http1.rs:136-154 | However the source cuts it, a line read is the next line of the stream; an interrupted read loses nothing. |
| `Http1.ReadSomeIsPrefix` | src/http1.rs:162-171 | A read of some bytes is a front part of the stream, non-empty unless the stream is at its end. |
| `Http1.ReadBodyDelivers` | src/http1.rs:244-300 | One body read takes its bytes off the front of the body that the reader's own framing defines - lenient where a line follows chunk data and where the source ends inside the trailers - returns nothing only at its end, and names each framing error exactly when it is there. |
| `Http1.ReadAllIsBody` | src/http1.rs:244-318 | Reading until the first empty read gives the whole body for all fragments, time-outs and non-empty buffer sizes, and leaves what follows; a body cut short ends just as quietly. |
| `Http1.ChunkedRoundTrip` | src/http1.rs:262-298 | That framing on a message in the chunked coding of RFC 9112 section 7.1: its chunk data, ending right behind the trailer section. |
| `Http1.ChunkedMessageIsRead` | src/http1.rs:244-318 | A well-formed chunked message, cut anywhere and read with any non-empty buffers, gives the concatenated chunk data and leaves exactly the bytes behind the trailers. |
| `Http1.SizeLineValue` | src/http1.rs:266-270 | The size of a chunk is the hexadecimal number before the first semicolon. |
| `Http1.SizeIff` | src/http1.rs:262-274 | Exactly which lines give a size: digits of base sixteen, perhaps behind a plus, with white space around, then nothing or anything behind a semicolon, of a value that fits; every other line is malformed. |
| `Http1.InterruptedReadsLoseNothingIff` | src/http1.rs:304-318 | For each state and buffer size: no source makes a read swallow bytes if and only if the buffer is at most one byte, or the body has ended, runs to the end of the source or is in its trailers, or one byte of body or chunk is left. |
| `Http1.BufIo.FillHook` | src/http1.rs:118-133 | The loop over time-outs does what the specification of a fill says. |
| `Http1.BufIo.ReadLineHook` | src/http1.rs:136-154 | The line loop reads the specified line and leaves the specified buffer. |
| `Http1.BufIo.ReadSomeHook` | src/http1.rs:162-171 | Draining the buffer gives the specified bytes and keeps the rest. |
| `Http1.BufIo.ReadExactOrEof` | src/http1.rs:304-318 | The exact read returns what the specification says, also what it had drained when interrupted. |
| `Http1.BodyReader.ReadBodyHook` | src/http1.rs:244-300 | The state loop of the body reader steps as specified, errors included. |
| `HttpHead.ReadHeadHook` | src/http1.rs:177-203 | The head loop reads the specified head, with the errors for an empty response and a bad status line. |
| `HttpHead.HeadIsRead` | src/http1.rs:177-203 | However the source cuts a response, with any reason phrase, its status and fields come out as written, in order, and the stream stands at the first byte of the body. |
| `HttpHead.LookupIsFirst` | src/http1.rs:80-85 | Looking a field up finds the first one whose name matches in any letter case, and nothing if there is none. |
| `HttpHead.FramingIs` | src/http1.rs:78-100 | By the characters of the fields: chunked coding if and only if the first field named transfer-encoding, in any letter case, has the word chunked in its value, in any letter case; a length if and only if not, and the first content-length writes, with white space around, a number that fits; everything up to the end of the connection otherwise. |
| `HttpHead.ChunkedResponseIsRead` | src/http1.rs:173-318 | A whole response whose first transfer encoding names the chunked coding is read as its head, exactly the chunk data, and an untouched rest, for all fragments, time-outs and buffer sizes. |
| `HttpHead.SizedResponseIsRead` | src/http1.rs:173-318 | A whole response with a content length and no chunked coding is read as its head, exactly that many bytes, and an untouched rest. |
| `BootMark.ScanLossless` | src/boot_mark.rs:92-163 | Segments and held tail together are the input, in order, and at most MARK_CAP bytes are held. |
| `BootMark.CutOnce` | src/boot_mark.rs:92-163 | For a stream in which every introducer of more than MARK_CAP+1 bytes is no mark, and holds no mark and no front part of one behind those bytes, cutting once changes neither the tokens nor the held tail. |
| `BootMark.AnyCutIsTheSame` | src/boot_mark.rs:92-163 | For such a stream every way of cutting it gives the same tokens and the same held tail. |
| `BootMark.AnyCutIff` | src/boot_mark.rs:92-163 | For any stream: all ways of cutting it give the same tokens and the same held tail if and only if it is such a stream. |
| `BootMark.ModestIsCutFree` | src/boot_mark.rs:92-163 | In particular every stream whose introducers run at most MARK_CAP+1 bytes through the end of their terminators. |
| `BootMark.ScanAllLossless` | src/boot_mark.rs:92-163 | For every stream and every cut: nothing lost or reordered, at most MARK_CAP bytes held. |
| `BootMark.SingleMarkAnyCutIff` | src/boot_mark.rs:119-154 | For one mark with either terminator all cuts agree if and only if its payload has more than 64 bytes, or at most 49 in front of BEL and at most 48 in front of ESC backslash. |
| `BootMark.HeldIsHeld` | src/boot_mark.rs:92-163 | What is held back would be held back again: the tail is still undecided. |
| `BootMark.Strip` | src/boot_mark.rs:92-163 | The scan loop gives segments that flatten to the specified tokens, with adjacent clean text merged, and the specified tail. |
| `BootMark.FirstTerm` | src/boot_mark.rs:121-128 | Two searches and the earlier hit are the first terminator of either kind. |
| `BootMark.BootStrip.Feed` | src/boot_mark.rs:92-163 | One feed strips held tail and chunk and keeps the new tail. |
| `BootMark.AccountLife` | src/boot_mark.rs:189-262 | Between two openings at most one mark is kept or one lateness reported, never both; a verdict is handed out at most once, and only if a mark was kept. |
| `BootMark.WindowDecides` | src/boot_mark.rs:216-244 | Marks are kept only inside the window; lateness is reported only after it. |
| `BootMark.TakenWasKept` | src/boot_mark.rs:248-262 | A reply that hands out a session name, or says that there is none, follows a reply that kept a mark inside the window with exactly that payload, or the sentinel. |
| `BootMark.KeptIff` | src/boot_mark.rs:228-244 | Over any run since an opening: a mark is kept if and only if it comes inside the window before anything settled the account - an earlier such mark, a tick after the window, a closing - and rejected otherwise. |
| `BootMark.LateIff` | src/boot_mark.rs:216-226 | The window is reported over if and only if a tick comes after it before anything settled the account. |
| `BootMark.TakenIff` | src/boot_mark.rs:248-264 | A session name, or that there is none, is handed out if and only if a mark was kept whose payload is that name, or the sentinel, not empty and without control characters, and since then it was neither handed out nor the account closed. |
| `BootMark.NoAccount` | src/boot_mark.rs:202-264 | Without an account every mark is rejected and nothing is reported or handed out. |
| `BootMark.Register.Open` | src/boot_mark.rs:189-200 | Opening a leg starts its account afresh and touches no other leg. |
| `BootMark.Register.Tick` | src/boot_mark.rs:216-226 | A tick settles a pending account as missed exactly once its window is over. |
| `BootMark.Register.Record` | src/boot_mark.rs:228-244 | Recording keeps or rejects a mark and changes only that leg's account. |
| `BootMark.Register.TakeApply` | src/boot_mark.rs:248-262 | The verdict is handed out once. |
| `SessionPump.StripLossless` | src/gate.rs:800-835 | Seen from the pump, the stripper neither loses nor invents bytes. |
| `SessionPump.DropToFitIsLongest` | src/gate.rs:858-878 | What stays in the replay buffer is the longest run of newest entries within the cap. |
| `SessionPump.PushReplay` | src/gate.rs:858-878 | Queueing keeps the byte counter equal to the queued bytes and drops only the oldest entries, only while over the cap. |
| `SessionPump.LongestPush` | src/gate.rs:858-878 | Pushing one piece onto the longest run that fits leaves the longest run that fits: nothing is dropped earlier than it must be. |
| `SessionPump.ControlsAreNewest` | src/gate.rs:830-835 | A round leaves in the control queue the newest 256 of the events that waited and those that all channels brought, in order. |
| `SessionPump.SessionPump.Register` | src/gate.rs:753-758 | Registering a name takes its old channel out, leaves the others in their order, and drops the replay buffer and the held tail of that name. |
| `SessionPump.SessionPump.HandleOutput` | src/gate.rs:790-835 | A chunk of output: recorder, sink and replay get exactly the pieces between kept marks, the marks removed are those the account kept, and what waits for every session stays the longest run of newest pieces queued since the last taking that fits the cap. |
| `SessionPump.SessionPump.Pump` | src/gate.rs:776-842 | Of each session everything received since its registration is the pieces shown, the kept marks taken out, and the held tail, in order; the recorder has been given exactly the pieces shown since then and the display those of the active rounds; the rest was queued for replay; control events are queued in order. |
| `SessionPump.ToldRound` | src/gate.rs:776-842 | A round adds to what the recorder and the display were given exactly the new pieces of each session that went to them. |
| `SessionPump.SessionPump.TakeReplay` | src/gate.rs:844-852 | Handed out once: of the pieces queued since the last time, or since the registration, the longest run of newest ones that fits the cap, oldest first. |
| `SessionPump.SessionPump.TakeControl` | src/gate.rs:854-856 | Control events are handed out once, in order. |
| `GlyphAtlas.RowsAt` | src/glyph_atlas.rs:153-160 | Copying row by row into the flat buffer sets exactly the pixels of the rectangle and no other. |
| `GlyphAtlas.NewPageOnlyWhenFull` | src/glyph_atlas.rs:137-149 | A new page is opened only when the glyph fits nowhere right of the cursor on the shelf and nowhere below it. |
| `GlyphAtlas.InsertKeeps` | src/glyph_atlas.rs:113-177 | Inserting keeps every slot inside its page, apart from all others, and showing its own bitmap. |
| `GlyphAtlas.SlotsShowTheirGlyphs` | src/glyph_atlas.rs:113-199 | After any run of inserts and clears a key is indexed exactly when inserted since the last clear, and its slot shows the bitmap it was first inserted with. |
| `GlyphAtlas.SlotsNeverOverlap` | src/glyph_atlas.rs:113-199 | After any run no two keys share a pixel. |
| `GlyphAtlas.RevisionCounts` | src/glyph_atlas.rs:113-199 | Over any run the revision moves on with every clear and every new glyph, and with nothing else. |
| `GlyphAtlas.AtlasPage.Write` | src/glyph_atlas.rs:151-164 | The copy loop and the shelf update on a real array give the page of the specification. |
| `GlyphAtlas.GlyphAtlas.constructor` | src/glyph_atlas.rs:94-100 | A new atlas has one blank page, at least one pixel each way. |
| `GlyphAtlas.GlyphAtlas.Locate` | src/glyph_atlas.rs:137-149 | A glyph goes on the shelf, on the next shelf, or on a new page. |
| `GlyphAtlas.GlyphAtlas.Insert` | src/glyph_atlas.rs:113-177 | On pages that are objects with arrays of their own, inserting does what the specification does; the sixteen-bit numbers of the slot lose nothing; an indexed key is returned unchanged. |
| `GlyphAtlas.GlyphAtlas.Clear` | src/glyph_atlas.rs:190-199 | Clearing leaves one blank page, an empty index and a new revision. |
| `Instances.QuadDrawsGlyph` | src/glyph_atlas.rs:295-323 | For every screen pixel the clipped quad sampled from the atlas lays down what drawing the glyph pixel by pixel (src/termview.rs:9425-9446) lays down. |
| `Instances.GridToInstances` | src/glyph_atlas.rs:262-326 | The two loops give the specified blocks, quads and missed keys. |
| `Instances.BlocksAre` | src/glyph_atlas.rs:275-286 | One background for every cell whose colour is not the default, in their order. |
| `Instances.MissesAre` | src/glyph_atlas.rs:287-298 | The missed keys are those of the cells that are no spacer, lie above the space and are neither DEL nor C1, and have no slot - one each, in their order. |
| `Instances.QuadsAre` | src/glyph_atlas.rs:288-325 | One quad for every such cell whose slot has a part inside the cell, or two for a wide character, in their order: that part, at the slot's offset. |
| `Instances.FramesAgreeIff` | src/glyph_atlas.rs:262-326 | With every character loaded: the blocks and then, page by page (src/android_app.rs:9073-9080), the quads give a pixel the colour of the processor's two passes (src/termview.rs:3522-3586), however colours are mixed, if and only if the colours and inks that meet there come in the same order by pages as by cells. |
| `Instances.FrameIsCpuFrame` | src/glyph_atlas.rs:262-326 | In particular wherever the quads that meet lie on ascending pages, as on one page. |
| `Instances.FramesDiffer` | src/android_app.rs:9073-9080 | Two cells and an atlas of two pages, loaded through inserts, where the two frames differ: a glyph that leans into the cell on its left is drawn under that cell's glyph instead of over it. |
| `Instances.PageOrderIff` | src/android_app.rs:9073-9080 | Drawing page by page keeps the order of the quads that meet at a pixel if and only if their pages ascend in the order of the cells. |
| `Instances.LoadedThenNoMiss` | src/android_app.rs:9012-9070 | Misses are named by font 0 and loaded under the font that has the character; the second generation finds every character that has a glyph, with that glyph, and misses only those that have none. |
| `Recorder.ReadWhole` | src/gate.rs:1464-1501 | A record that was written, followed by anything, is read back, and exactly its bytes are used up. |
| `Recorder.RecordLayout` | src/gate.rs:1428-1455 | Where each part of a record stands: time, kind, name length, name, the two fields and the payload length, lowest byte first, and the payload. |
| `Recorder.UnknownIsSkipped` | src/gate.rs:1484-1501 | A record of a kind the program does not know is passed over by its length and changes nothing of what is decoded behind it. |
| `Recorder.ReadTorn` | src/gate.rs:1466-1483 | No proper front part of a record is taken for a record. |
| `Recorder.DecodePrefix` | src/gate.rs:1458-1503 | Cut a recording anywhere behind its magic: what decodes is exactly the events that lie wholly before the cut. |
| `Recorder.RoundTripIff` | src/gate.rs:1428-1503 | A full recording comes back as it was if and only if no name is longer than 255 bytes. |
| `Recorder.KeepCountIs` | src/gate.rs:1515-1525 | Counting back from the newest keeps the longest run within the budget, or the newest alone. |
| `Recorder.CompactedKeepsNewest` | src/gate.rs:1507-1531 | Compacting an over-cap recording gives one that decodes to the longest suffix of its events fitting the cap, or to the newest alone when not even that fits. |
| `Recorder.CompactedIdempotent` | src/gate.rs:1507-1531 | Compacting twice is compacting once, and a recording within the cap or with a bad magic is left alone. |
| `Recorder.DecodeAll` | src/gate.rs:1458-1503 | The cursor loop decodes what the specification says. |
| `Recorder.Compact` | src/gate.rs:1507-1531 | The loop from the newest back writes the specified recording. |
| `Mirror.ParsedIsFirstWins` | src/fs_mirror.rs:59-85 | A manifest read back is strictly ascending, as the binary search of `get` needs, and has for each path the entry stored first. |
| `Mirror.Reconcile` | src/fs_mirror.rs:143-164 | The two loops give the specified fetch and delete lists. |
| `Mirror.MirrorDir.SyncRun` | src/fs_fetch.rs:602-697 | A run changes files and manifest as specified, for any outcome of every fetch, deletion and the manifest write, with the paths that `Mirror.SafeIff` names. |
| `Mirror.SafeIff` | crates/na-protocol/src/fsapi.rs:97-116 | A path is safe if and only if it does not begin with a slash, no stretch of it between slashes is two dots, and some stretch is neither empty nor a single dot. |
| `Mirror.JoinedIsSafe` | src/fs_mirror.rs:94-97 | Ordinary names joined by slashes are a safe path, spelled plainly, that leads through exactly these names. |
| `Mirror.PlaceOfTwo` | crates/na-protocol/src/fsapi.rs:105-114 | Where any path leads: through its stretches in order, without the empty ones and the single dots. |
| `Mirror.SyncKeepsCoherentIff` | src/fs_fetch.rs:635-697 | For any list, any failures and anything the fetches bring: a run keeps every manifest entry naming the version its file holds if and only if at every path the version brought last is the one the manifest names from then on. |
| `Mirror.HonestAgreesIff` | src/fs_fetch.rs:635-697 | With a list that names every path once and fetches that bring what was listed, that fails exactly where the manifest is not written after a changed file was replaced. |
| `Mirror.NextPlanIs` | src/fs_fetch.rs:648-697 | After a run whose manifest was written, for any list and whatever failed, the next plan against the same list deletes nothing and fetches exactly the entries that the run's outcome singles out: failed ones by their old entry, others by the first version listed. |
| `Mirror.RetryIsExactlyFailed` | src/fs_fetch.rs:648-697 | For a list that names every path once these are exactly the failed files. |
| `Mirror.CleanRunSettlesIff` | src/fs_mirror.rs:143-164 | After a failure-free run the next plan is empty if and only if the list gives no path two versions (the server merges several roots, crates/na-protocol/src/fsapi.rs:219-250). |
| `Mirror.CleanRunMirrorsIff` | src/fs_fetch.rs:635-697 | A failure-free run over a truthful manifest makes the manifest the list; the mirror shows the list at a path if and only if what was brought for it is what was listed and no unlisted file without a manifest entry lies there; such a file is left as it is. |
| `Mirror.RunCoherentIff` | src/fs_fetch.rs:602-697 | Over any run of syncs - any lists, failures and versions brought - and of files and manifests lost on the device: every manifest entry names at all times the version its file holds if and only if every sync agrees at every path. |
| `Mirror.StrayAfterIff` | src/fs_fetch.rs:635-697 | After a run a file lies at a path without a manifest entry if and only if an unlisted file of the manifest was not deleted while the manifest was written; or a file was brought for a path without an entry while the manifest was not written or another fetch of the path failed; or such a file lay there before and its path is not listed or nothing was brought for it. |
| `Mirror.NeverStrayIff` | src/fs_fetch.rs:602-697 | Over any run there is never such a file if and only if no sync leaves one and the manifest is not lost over one. |
| `Mirror.CleanRunIsListIff` | src/fs_fetch.rs:635-697 | After a failure-free run over a truthful manifest the mirror is the list - its files in their listed versions and no others - if and only if the run agrees and every file without an entry is listed. |
| `Mirror.AnyRunThenMirrors` | src/fs_fetch.rs:602-697 | From a first install, after any run of agreeing syncs: one failure-free sync makes the mirror the list, with no other file, if and only if it agrees too and every file without an entry is listed; and the sync after it plans nothing exactly if the list gives no path two versions. |
| `Mirror.SaneRunMirrors` | src/fs_fetch.rs:602-697 | The promise: with lists that name every path once, fetches that bring what was listed or fail, deletions that take and manifests that are written, one sync in which no fetch fails makes mirror and manifest exactly the list, and the next plans nothing. |
| `Mirror.DeletedFileStays` | src/fs_fetch.rs:673-697 | The run that keeps a deleted file for good: its deletion fails and the new manifest no longer names it; both syncs agree, nothing is planned any more, and the file stays, to be opened by its path (src/fs_fetch.rs:529-545), whatever follows without listing it again. |
| `Mirror.UnwrittenLeavesStray` | src/fs_fetch.rs:635-697 | A first sync that brings a file and cannot write the manifest agrees at every path and leaves that file without an entry. |
| `Mirror.StrayForGood` | src/fs_mirror.rs:157-162 | Deletions are planned from the manifest alone, so no later step removes such a file as long as its path is not listed. |
| `Mirror.UnsavedGoesStale` | src/fs_fetch.rs:693-697 | Where the promise ends: an unwritten manifest after a replacement, then a server back at the old version, leaves a wrong file that no later run repairs. |
| `Mirror.PartialFailureLies` | src/fs_fetch.rs:648-692 | A path listed twice with one version (the server merges several roots, crates/na-protocol/src/fsapi.rs:219-250), fetched once and failed once, leaves a manifest entry that does not name what the file holds. |
| `CtrlFeed.HeaderRoundTrip` | src/tmux_ctl.rs:433-450 | A printed seed header reads back exactly when its numbers fit their types. |
| `CtrlFeed.LineIs` | src/tmux_ctl.rs:500-531 | What a line is, by its text without one carriage return at its end: a begin, end or error mark or the channel's end if it is that word behind a percent sign or goes on behind it with a space; output exactly if it names a pane by its number; plain if it does not begin with a percent sign; a notification otherwise. |
| `CtrlFeed.HeaderIs` | src/tmux_ctl.rs:432-456 | A line is a seed header exactly if it is the tag and at least six words with one space between, of which the first five write the numbers, in their widths, and the sixth a percent sign and the pane's. |
| `CtrlFeed.UnescapeIs` | src/tmux_ctl.rs:476-498 | Any payload: bytes up to the first backslash with three octal digits stand for themselves, that escape is one byte, and so on behind it. |
| `CtrlFeed.UnescapeEscape` | src/tmux_ctl.rs:476-498 | Unescaping gives back every byte string that tmux escaped. |
| `CtrlFeed.OutputLineReads` | src/tmux_ctl.rs:502-531 | An output line gives back its pane and exactly the bytes written. |
| `CtrlFeed.CutChangesNothing` | src/ctrl_feed.rs:180-191 | Feeding two pieces gives the actions, the state and the kept-back bytes of feeding them at once. |
| `CtrlFeed.ConsumeIsActs` | src/ctrl_feed.rs:180-195 | Taking input in gives exactly the actions of its whole lines, one by one, and the state after them. |
| `CtrlFeed.OutputIsHanded` | src/ctrl_feed.rs:195-218 | Output of the claimed pane is held back exactly while the canvas is being built and fed otherwise; no other line hands over bytes. |
| `CtrlFeed.PaneOutputArrives` | src/ctrl_feed.rs:180-218 | While a pane is claimed, every byte it writes, and no other, is handed over, in order and in every phase. |
| `CtrlFeed.Machine.FeedBytes` | src/ctrl_feed.rs:180-191 | The drain loop takes out exactly the whole lines and handles them in order. |
| `CtrlFeed.Machine.Handle` | src/ctrl_feed.rs:195-304 | One line's event moves the fields as specified; output of the claimed pane is fed in every phase but Building, where it is held for later. |
| `CtrlFeed.Machine.SeedSent` | src/ctrl_feed.rs:153-159 | A seed command starts a round with its token and keeps the pane. |
| `CtrlFeed.Machine.Reset` | src/ctrl_feed.rs:162-168 | A reset gives up the pane and the round. |
| `CtrlFeed.BuildIsOneRound` | src/ctrl_feed.rs:195-304 | Whatever was fed since a seed command, a Build means one round claimed by its token, and the text is exactly the plain lines of the block after the header's. |
| `CtrlFeed.RoundBuilds` | src/ctrl_feed.rs:195-304 | Every such round ends in the Build of its body with the header's cursor. |
| `CtrlFeed.RoundIsRead` | src/ctrl_feed.rs:178-304 | The bytes of a whole round as tmux prints it - begin and end marks with their time, number and flags, the header, the lines of the screen, with either line end - give exactly one action that does anything: the Build of those lines at the header's cursor. |
| `CtrlFeed.AsksFor` | src/ctrl_feed.rs:244-304 | A notification asks for reconciliation exactly between rounds while a pane is claimed; the channel's end tears down at any time; an error mark fails exactly an open round; an end mark in place of the capture fails it too. |
| `CtrlFeed.CaptureIsPrintedIff` | src/ctrl_feed.rs:195-304 | A capture block gives the text that it prints if and only if no printed line begins with a percent sign: such a line of the screen is dropped, ends the round, or, if it reads as an output line of the claimed pane, is fed to the canvas as that pane's output. |
| `CtrlFeed.FailsAtFourthStale` | src/ctrl_feed.rs:244-271 | Before the header the round fails at the fourth block with a body, and not at the third. |
| `CtrlFeed.ClueIs` | src/ctrl_feed.rs:220-285 | A seeding that fails for stale blocks reports the first plain line of the last of them, its first sixty characters with carriage returns and line feeds as spaces. |
| `CtrlFeed.BuildNeedsItsSeed` | src/ctrl_feed.rs:153-304 | Over any history of lines, seed commands, resets and installations a Build belongs to the newest seed command; nothing of earlier rounds enters it. |
| `OfflineKeys.HexRoundTrip` | src/offline_keys.rs:144-167 | Decoding encoded bytes gives them back if they are a text in UTF-8, and nothing otherwise. |
| `OfflineKeys.Utf8Iff` | src/offline_keys.rs:153-167 | The bytes that the decoder takes for a text are exactly the UTF-8 encodings of characters - code points other than surrogates. |
| `OfflineKeys.Utf8Append` | src/offline_keys.rs:153-167 | A text behind some bytes makes them no better and no worse: they are UTF-8 together if and only if the bytes are. |
| `OfflineKeys.TornDecodes` | src/offline_keys.rs:112-167 | An input written behind a torn part of a line decodes together with it, or not at all - as behind an odd digit or half a character. |
| `OfflineKeys.DecodedLog` | src/offline_keys.rs:132-142 | A written log decodes to what was written, after whatever whole lines stood before it. |
| `OfflineKeys.FitIsLongest` | src/offline_keys.rs:59-71 | What a push keeps is a suffix that fits the cap, and one more input would not fit. |
| `OfflineKeys.Keys.Push` | src/offline_keys.rs:59-86 | The loop that drops the oldest and the log write give the specified queue, count and file, for a working or a broken file. |
| `OfflineKeys.Keys.DrainAll` | src/offline_keys.rs:89-96 | Draining hands out everything in order and empties queue and log. |
| `OfflineKeys.Keys.AttachWal` | src/offline_keys.rs:37-52 | Attaching pushes what the file holds, nothing if it is no text, through the queue and writes it back unless nothing is pending. |
| `OfflineKeys.AttachRestoresIff` | src/offline_keys.rs:37-52 | After attaching, queue and log are in step if and only if the file is a text that ends in a line feed (or is empty), or something is pending. |
| `OfflineKeys.FirstKeySurvivesIff` | src/offline_keys.rs:37-86 | Attach, then type, any file and any input: the log brings the queue back if and only if the file was a text that did not end in an open line, or something was recovered, or the input is longer than the cap - it is dropped then, with all that was pending, and counted - or it is empty and the open line is a single carriage return. |
| `OfflineKeys.RunRestores` | src/offline_keys.rs:37-142 | From a log in step, after any run of push and drain, oldest-drop rewrites included, replaying the log gives the queue. |
| `OfflineKeys.BrokenWriteDetaches` | src/offline_keys.rs:48-86 | A write that breaks off detaches the log: the file stays as it was left, whatever is typed and drained later, and the queue goes on in memory. |
| `OfflineKeys.QueueIsNewest` | src/offline_keys.rs:59-96 | The queue is always the longest run of newest inputs since the last drain that fits the cap. |
| `OfflineKeys.EveryInputCounted` | src/offline_keys.rs:59-110 | Pushed is drained, pending and dropped together, over any run. |
| `Conn.Session.Receive` | src/session.rs:99-137 | The session object moves and reports as specified; final states are silent. |
| `Conn.EndIsSaidOnce` | src/session.rs:99-138 | Whatever a server sends, a session says its end once, exactly when it has ended, and nothing behind it. |
| `Conn.Driver.constructor` | src/conn.rs:405-411 | The first message is the open request. |
| `Conn.Driver.Replay` | src/conn.rs:430-443 | On opening, the cached size goes first, then the cached inputs in order, until one cannot be sent. |
| `Conn.Driver.TakeText` | src/conn.rs:416-455 | One server message moves the driver as specified. |
| `Conn.Driver.TakeCommand` | src/conn.rs:457-479 | One command moves the driver as specified. |
| `Conn.RunFollows` | src/conn.rs:361-483 | For every interleaving and wherever sending breaks off: what is on the wire is the open request, then the newest size and all inputs that waited, then each command as it came - or a front part of that. |
| `Conn.InputsInOrder` | src/conn.rs:405-480 | Inputs sent are at all times an in-order, duplicate-free front part of the inputs received, and all of them while live. |
| `Conn.OpenThenNewestSize` | src/conn.rs:405-443 | Nothing but the open request precedes the opening; the next message is the newest size, if one was given. |
| `Conn.ListensUntilGone` | src/conn.rs:405-479 | The loop listens to commands exactly as long as it runs and their sender has not gone. |
| `Conn.EndIsReportedOnce` | src/conn.rs:416-455 | The end of a connection is reported exactly once, and nothing after it. |
| `Conn.OwnerIsTold` | src/conn.rs:416-455 | For every interleaving the owner is told of the opening, of every output of its own session in order, and of the end, and of nothing else; a broken send is reported behind that. |
| `SysHist.PushedIsNewest` | src/sys_hist.rs:307-315 | Pushing one by one keeps exactly the newest 192 samples and counts every one. |
| `SysHist.Hist.PushAt` | src/sys_hist.rs:307-315 | One push moves the ring as specified. |
| `SysHist.Hist.Restore` | src/sys_hist.rs:319-327 | Restoring keeps the newest samples, takes the sequence number and forgets the phase. |
| `SysHist.TargetRoundTrip` | src/sys_hist.rs:403-413 | A target with only plain spaces as white space, no literal `%20`, and not a dash survives its encoding. |
| `SysHist.Layout` | src/sys_hist.rs:417-440 | The text of a head and of a sample as they stand in the file, a missing share as a dash. |
| `SysHist.DecodedKeeps` | src/sys_hist.rs:411-413 | No word decodes to any other kind of target. |
| `SysHist.DecodeHist` | src/sys_hist.rs:444-499 | The line loop decodes what the specification says, bad lines skipped. |
| `SysHist.LineIs` | src/sys_hist.rs:455-494 | What becomes of any line, by its text: nothing of an empty one; a head behind a hash sign; and otherwise a sample of the last kind named, exactly if there is one and the line has six words of which the first two are numbers that fit. |
| `SysHist.HeadIs` | src/sys_hist.rs:459-472 | What the words behind a hash sign set, by their text: the kind, if it is one of the two, its target, and its sequence number, nought if no number that fits is written. |
| `SysHist.BadLineIsSkipped` | src/sys_hist.rs:455-494 | A line that is empty, or neither head nor sample, makes no difference wherever it stands. |
| `SysHist.OtherFormatIsEmpty` | src/sys_hist.rs:448-451 | A text that does not begin with the format's line is two empty rings without targets. |
| `SysHist.RoundTripIff` | src/sys_hist.rs:397-499 | Two rings and their targets come back exactly if and only if both targets are of that kind. |
| `Wrap.MultilineStarts` | src/input_bar.rs:84-101 | The loop gives the greedy starts. |
| `Wrap.GreedyBreaks` | src/input_bar.rs:84-101 | The greedy starts are a breaking: from 0 on, every line fits or is one character, line feeds only at line ends. |
| `Wrap.GreedyIsOptimal` | src/input_bar.rs:84-101 | No breaking of the same text has fewer lines. |
| `Wrap.ChainIncreases` | src/input_bar.rs:84-101 | Starts begin at 0 and strictly increase. |
| `Wrap.FeedsBreak` | src/input_bar.rs:88-92 | Behind every line feed a line starts. |
| `Catchup.Machine.Enter` | src/catchup.rs:133-147 | An explicit entry moves all fields as specified, also when it upgrades a round. |
| `Catchup.Machine.NoteBytes` | src/catchup.rs:176-198 | Noting bytes moves the window and enters by rate as specified. |
| `Catchup.Machine.ThrottleFrame` | src/catchup.rs:205-216 | A frame is let through exactly when a round by rate has waited long enough. |
| `Catchup.Machine.KeystrokeLand` | src/catchup.rs:237-249 | A key lands a round and starts the window anew. |
| `Catchup.EveryEntryLandsOnce` | src/catchup.rs:133-259 | In every run, at any times, entries are landings plus one exactly while catching, and each landing was one Land. |
| `Catchup.FramesArePaced` | src/catchup.rs:205-216 | In a round at most one frame per 400 ms is let through. |
| `Catchup.FrameIff` | src/catchup.rs:205-216 | A frame is let through if and only if the open round was begun by bytes, no explicit entry came since, and 400 ms have passed since it began or since its last frame. |
| `Catchup.QuietIff` | src/catchup.rs:251-259 | A tick lands an open round if and only if 150 ms have passed since the last bytes or explicit entry. |
| `Catchup.RateEntryIff` | src/catchup.rs:176-196 | Bytes begin a round exactly if none is open and those noted since the rate window was last started anew have reached RATE_BYTES. |
| `Catchup.CountersCount` | src/catchup.rs:133-259 | The counters of entries, entries by rate and landings by a key are exact, and the note of the last beginning waits until it is taken. |
| `Catchup.RoundAccount` | src/catchup.rs:133-216 | An open round has the call that began it: its start time is that call's, the bytes held back are exactly those noted since, and it lets frames through exactly if bytes began it and no explicit entry came since. |
| `Catchup.ReentryNeedsNewBytes` | src/catchup.rs:176-259 | After a key or quiet landing, whatever happens then, an entry by rate needs RATE_BYTES newly noted bytes. |
| `Catchup.AnchorKeepsTheWindow` | src/catchup.rs:176-228 | After a landing at the anchor, whatever happens then, the next entry by rate comes exactly when the bytes that count reach RATE_BYTES; those carried over the landing count if and only if no explicit entry and no key landing came since and the window has not run out. |
| `Catchup.WindowIs` | src/catchup.rs:176-249 | Over any run the window holds the bytes noted since the last call that started it anew, or with them those it began with. |
| `Catchup.AnchorIsUndone` | src/catchup.rs:176-228 | One flood from the start, landed at the anchor, is entered again by any next bytes in time, even none. |
| `Limiter.AtMostOneLimitPerWindow` | src/gate.rs:1858-1866 | From the event that opens a window up to the next opening at most 200 events pass. |
| `Limiter.AtMostTwoLimitsPerSpan` | src/gate.rs:1858-1866 | In any span shorter than an hour at most 400 events pass, for every call sequence in positive monotone time. |
| `Limiter.FullStaysShut` | src/gate.rs:1858-1866 | Once a window is full nothing passes while its hour lasts, for every call sequence. |
| `Limiter.PassesIff` | src/gate.rs:1850-1868 | The first event passes; any other passes if and only if the window opened last is an hour old, and then it opens the next, or fewer than 200 have passed in it. |
| `Limiter.NoLimitAtZero` | src/gate.rs:1859-1861 | At time 0 everything passes. |
| `Limiter.BoundedIffPositive` | src/gate.rs:1858-1866 | The bound of 400 in every span shorter than an hour holds for all runs from a time on if and only if that time is positive. |
| `Sse.DrainIsFrameByFrame` | src/brain.rs:73-109 | Draining gives the frames that asking one by one gives. |
| `Sse.Parser.Take` | src/brain.rs:73-99 | The line loop stops at the first whole frame and keeps the rest. |
| `Sse.Parser.DrainFrames` | src/brain.rs:102-109 | The drain loop empties the buffer of whole frames. |
| `Sse.CutChangesNothing` | src/brain.rs:69-109 | Feeding two pieces gives the frames and the state of feeding them at once. |
| `Sse.EventsArrive` | src/brain.rs:69-109 | However a server's events are cut up - comments, other fields and both line ends included - exactly their payloads come out, in order, and nothing is left. |
| `Text.ParseDec` | src/tmux_ctl.rs:433-441 | A decimal number reads back exactly when it fits the type it is parsed as. |
| `Text.DigitIs` | src/offline_keys.rs:144-167 | A digit of base sixteen is its place among the sixteen digits, in either letter case, and is written in the lower. |
| `Text.SplitJoin` | src/tmux_ctl.rs:434-435 | Splitting joined parts at the separator gives the parts back. |
| `Text.LinesOfWhole` | src/offline_keys.rs:41-44 | The lines of a text behind whole lines are those lines and its own. |
| `Text.WordsOfJoin` | src/sys_hist.rs:462-475 | The words of words joined by spaces are those words. |
| `Text.ParseUintIs` | src/http1.rs:94-99 | A number is read exactly when the text writes it in decimal digits, with at most a plus sign, and it fits the type. |

## Left out

- Terminal.FeedLines: lines are printable, one cell per character and no longer than the width; colour sequences inside captured lines, wide characters, tabs, tab stops, scroll regions and the alternate screen are not modelled.
- CanvasSlot.RunIsSound: the grid keeps its size and captures are printable lines that fit it; a polled snapshot in the view, which can take the place of the canvas there, switching sessions, resizing, eviction from the pool, the retry and cadence clocks, and drawing are not modelled.
- CanvasSlot.WarmSession.Install: while the view is browsing the pool holds no canvas, as the source's comment on the field says; a polled snapshot shown over a canvas in the pool is not modelled.
- CanvasSlot.SeamIs: the pane is claimed before, during and after the stretch.
- Http1.ReadAllIsBody: socket, TLS and the clock behind the time-outs are a script of fragments, ticks and faults; request serialisation is not modelled.
- HttpHead.HeadIsRead: of the status line only the code is kept, as in the source.
- HttpHead.FramingIs: header text is bytes, so white space of several bytes around a length, which the source trims as well, is not modelled.
- BootMark.AccountLife: the account is per leg; the global lock and the log lines are left out.
- SessionPump.SessionPump.Pump: channels are queues that are empty or not; the dropping of a closed channel's sender side and the file behind the recorder are left out.
- GlyphAtlas.GlyphAtlas.Insert: that the page numbers and page sizes fit sixteen bits is a precondition; the revision number is unbounded.
- Instances.FramesAgreeIff: how a colour is laid over another is a parameter, with no ink changing nothing; swapping ringed letters for wide twins is left out.
- Instances.QuadDrawsGlyph: texture coordinates are texels, before the division by the page size in floating point; clipping at the frame's own edges is the viewport's and is left out.
- Recorder.RoundTripIff: names are bytes, so a name cut at 255 bytes inside a character is not repaired.
- Mirror.MirrorDir.SyncRun: JSON, the paged listing, directories, temporary files and the bytes of a file are left out; a file is the version it was fetched as.
- Mirror.RunCoherentIff: paths are spelled the way a directory walk spells them.
- CanvasSlot.RunInStepIff: what a pane has written is read off the lines of the channel, so a line of its screen that reads as an output line counts as one.
- Pane.CanvasFollowsPane: the pane keeps as much history as the canvas, and its size is that of the canvas.
- CtrlFeed.BuildIsOneRound: report texts are a reason and the first line as a clue.
- OfflineKeys.RunRestores: writing and removing the file succeed.
- Conn.RunFollows: pings, pongs and other frames are idle turns; the handshake and the runtime are left out.
- SysHist.RoundTripIff: heights, colours and grades of the bars are left out.
- Wrap.GreedyIsOptimal: widths are non-negative reals, so rounding in floating point is left out.
- Catchup.EveryEntryLandsOnce: counters are unbounded.
- Limiter.AtMostTwoLimitsPerSpan: the compare-and-swap loop around the limiter is left out; calls are a sequence.
- Files not modelled at all: `src/ai_presence.rs`, `src/session_router.rs`, `src/seed_sched.rs`, `src/self_restart.rs`, `src/keybar.rs`, `src/endpoint.rs`, `src/deliver.rs`, `src/sess_pool.rs`, `src/mail_feed.rs`.
- `synth_list_body` of `src/fs_mirror.rs`, the selection and caret state of `src/input_bar.rs`, the back-off tables of `src/session.rs`, and the chat translators of `src/brain.rs` are not modelled.
- Platform code (JNI, EGL, winit, QUIC, processes, signals), fonts and scroll physics have no visible semantics here.
