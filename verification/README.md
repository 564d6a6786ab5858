# A verified model of image-builder's progress, build-log and setup logic

image-builder runs osbuild, shows its progress on a terminal, keeps its output in logs and names and uploads what comes
out.  This project models the parts of it that hold real state or real arguments and proves what they promise.

**The terminal progress bar.**  `Terminal` interprets the bytes written to a terminal: EL (section 8.3.41 of ECMA-48),
CUU (section 8.3.22 of ECMA-48), cursor visibility, line feeds and the wrap at the last column, over an unbounded
grid of rows.  `Frame` proves that the incremental redraw gives exactly the picture of the last frame.  `Bar` is the
bar's object, with its in-place updates and the redraw loop.  `Handshake` is the bar with all its goroutines: a state
machine whose steps are single accesses to shared state and single writes to the terminal, in which the channel field
is read afresh wherever the code reads it and a bad close or send panics.  The bar's content is part of the state, and
the texts on the terminal are what the bar library makes of that content and the time.  Setters and Write may come at any
moment, inside a Stop as well.  `HandshakeSafety` proves its invariant, `HandshakeResults` says what every run gives and
`HandshakeShutdown` how a Stop comes to its end; `HandshakeFinalFrame` is about setters that come during one.  `Repaint` connects the state machine's renderer with the `Render`
method.  Start, Stop and renderLoop are steps of the state machine rather than methods because what matters about them
is how they interleave.

**Running osbuild.**  `SyncWriter` has writers that share a mutex and write byte by byte, and from it the build log.
`StatusLoop` is the loop over osbuild's statuses with the life of the process, on the real bar object; `Osbuild` and
`Metrics` go with it.  `CommandLine` is the argument vector and a parser for it.

**Around it.**  `Setup` is the preparation of a container under failing commands; `BibImg` the image types and the
upload loop that indexes exports by the position of the type; `Versions` the version check; `Tls` and `PackageSets` two
computations over maps with arbitrary iteration order; `CallLog` the mock command's record and its reader; `Artifact`
the artifact's name and the architecture read back from it.  `Decimal`, `Text` and `Wrappers` are small helpers.

What does not hold as one might expect, and when it does:

- `EnsureEnvironment` is documented as idempotent.  After the bind mount it is, but a retry after a failed bind mount
  stacks a second device file system (`Setup.RetryStacksDevtmpfs`); a successful call leaves the clean state exactly
  when no earlier call mounted one (`Setup.RetryConverges`).
- The upload loop of bootc builds uses the position of a type in the request as a position in the list of exports, which
  has no repetitions.  It is right exactly when no export repeats up to that position (`BibImg.ExportLookupIff`); with
  "raw" before "ami" it is not (`BibImg.SharedExportBreaksUpload`, `BibImg.RawThenAmiIsOutOfRange`).
- The one-second timer of Stop is described as a conservative measure.  If it fires before the renderer has closed the
  channel, the renderer can run into the close of a nil channel; if it fires after, nothing goes wrong
  (`HandshakeShutdown.TimeoutIsSafeIffClosed`; `HandshakeShutdown.EarlyTimeoutHappens` is a run of the first kind).
- What Stop leaves on the terminal need not be what the bar held when Stop was called, since setters may come during it
  (`HandshakeFinalFrame.MessageSetDuringStopShows`): each line is what the bar held at some moment since then
  (`HandshakeResults.FinalFrameIsCurrent`), and all of it is what the bar held at the call if no setter came before the
  last line was read (`HandshakeResults.FinalFrameShowsContent`).
- The cursor that Stop leaves, when nothing was flushed, need not be directly below the frame
  (`HandshakeFinalFrame.AddedLevelLeavesRow`): it is exactly when no level was added between the counting of the bars and the lowering of the cursor
  (`HandshakeFinalFrame.CursorDirectlyBelowIff`).
- The architecture is read back from a default name exactly when neither distribution nor type have a dot, or what
  precedes the first dot happens to end in that architecture (`Artifact.DefaultNameIsDetectedIff`); the name of a minor
  release is one it is not read back from (`Artifact.MinorReleaseIsNotDetected`).
- A redraw with fewer lines leaves the old ones, exactly when they stick out (`Frame.RedrawCoversIff`).
- Output captured by the bar reaches the terminal only at the end of a session: outside of one it is kept, however often
  Stop is called (`HandshakeResults.NothingFlushedBetweenSessions`).

The results about the progress bar assume: calls of Start and Stop do not overlap, nor do calls of SetProgress (any number
of goroutines may set messages and Write, all of this at any moment); reading the list of bars is atomic, as is each access to a field of a bar, and a line of a bar reads each field once; the library's text for
the spinner and the message is of one byte a character and printable apart from newlines, and its line for a bar fits
the width; the width does not change and is known; the terminal receives only the bar's output;
and, except where the timer is the subject, the timer does not fire before the close.  About the screen they further
assume that a session starts at the beginning of a line.

## Model

| member | source | states |
|---|---|---|
| `Frame.ShortenedLineFitsRow` | pkg/progress/progress.go:166-170 | any spinner or message text is made one printable row within the width, with a blank for a newline, keeping its beginning and ending in an ellipsis if it was cut |
| `Frame.CursorUpActs` | pkg/progress/progress.go:40-42 | the bytes of the cursor-up sequence, with its decimal count, move a terminal's cursor up by that count |
| `Frame.OneRowIffFits` | pkg/progress/progress.go:172-183 | counting lines counts rows exactly when the line fits the width |
| `Frame.FrameGivesPicture` | pkg/progress/progress.go:172-183 | the bytes of one redraw put the frame's lines on the rows from the cursor on, change no other row and return the cursor |
| `Frame.OnlyLastFrameShows` | pkg/progress/progress.go:172-203 | after any number of redraws that never lose lines the screen is as if only the last frame had been drawn |
| `Frame.RedrawCoversIff` | pkg/progress/progress.go:51-53 | a redraw leaves its own frame alone exactly when no row of the frame before sticks out below it: why reducing depth is unsupported |
| `Terminal.PlainOutputStaysBelow` | pkg/progress/progress.go:261-267 | flushed output without control sequences changes no row above the cursor |
| `Bar.TerminalProgressBar.constructor` | pkg/progress/progress.go:120-129 | a new bar has no levels, no text and an empty buffer |
| `Bar.TerminalProgressBar.SetProgress` | pkg/progress/progress.go:131-156 | the next level is added, an existing one set to the text and to done and total plus one, a later one refused with both numbers; no other level changes |
| `Bar.TerminalProgressBar.SetPulseMsg` | pkg/progress/progress.go:158-160 | the spinner's text is set |
| `Bar.TerminalProgressBar.SetMessage` | pkg/progress/progress.go:162-164 | the message is set |
| `Bar.TerminalProgressBar.Write` | pkg/progress/progress.go:231-236 | the bytes are appended to the buffer |
| `Bar.TerminalProgressBar.Render` | pkg/progress/progress.go:172-183 | the redraw loop writes the spinner, the bars in order and the message, each as a line, and goes up by their number |
| `Bar.RenderOnScreen` | pkg/progress/progress.go:172-183 | after it the spinner is on the cursor's row, the bars follow in order and the message is below them |
| `Repaint.RepaintIsRender` | pkg/progress/progress.go:172-183 | the renderer's steps, when no other step comes between, write what Render writes for the texts of their times |
| `Repaint.TickRedraws` | pkg/progress/progress.go:198-202 | a waiting renderer can repaint at any time and then waits again, with the frame of what the bar holds written |
| `HandshakeSafety.StepKeeps` | pkg/progress/progress.go:131-268 | every step of Start, Stop, the renderer, the setters and Write keeps the invariant of protocol, cursor, buffer, levels, content and screen |
| `HandshakeSafety.RunKeeps` | pkg/progress/progress.go:131-268 | the invariant holds along every run |
| `HandshakeResults.ShutdownIsSafe` | pkg/progress/progress.go:187-268 | in every interleaving nothing panics, at most one renderer runs and each channel is closed exactly by its renderer's exit |
| `HandshakeResults.SilentAfterStop` | pkg/progress/progress.go:238-254 | after Stop returned no renderer can write, all channels are closed and each cursor-hide has had its cursor-show |
| `HandshakeResults.ScreenBetweenFrames` | pkg/progress/progress.go:172-203 | between frames the screen is the latest frame in place, other rows untouched, cursor hidden and back on its row |
| `HandshakeResults.ScreenWithinFrame` | pkg/progress/progress.go:172-183 | within a frame the new lines stand above the rest of the old frame, whatever is updated meanwhile |
| `HandshakeResults.ScreenAfterStop` | pkg/progress/progress.go:190-197 | after Stop the last frame stays, the cursor is shown at or below its end, the rows between are untouched, and a plain flush changes none of this |
| `HandshakeFinalFrame.RowsBetweenAreLevelsAdded` | pkg/progress/progress.go:172-195 | between the frame and the cursor are as many rows as levels were added after the bars of the final frame were counted and before the cursor was moved down |
| `HandshakeFinalFrame.CursorDirectlyBelowIff` | pkg/progress/progress.go:190-197 | with nothing flushed the cursor stands directly below the frame if and only if no level was added between the two |
| `HandshakeFinalFrame.AddedLevelLeavesRow` | pkg/progress/progress.go:190-195 | a run of a fresh bar in which one row is left between |
| `HandshakeResults.FramesShowContent` | pkg/progress/progress.go:172-183 | whatever the setters do meanwhile, each line of a frame is what the bar held when it was read, in the order of reading and each field of a bar since the line before, with a number of bars that fits |
| `HandshakeResults.PastWasHeld` | pkg/progress/progress.go:158-164 | what a line is said to have been read from is what the bar held at a moment of the run |
| `HandshakeResults.RunSets` | pkg/progress/progress.go:158-164 | after every run the spinner's text and the message are those last set, and what was written is the bytes of the writes in order, by the steps of the run alone |
| `HandshakeResults.SettersArePossible` | pkg/progress/progress.go:158-164 | the message setters are possible at any moment, SetProgress when no other is under way, Write when nobody holds the mutex |
| `HandshakeResults.CallOfStopIsRecorded` | pkg/progress/progress.go:238-243 | where the content of the bar stood when Stop was called |
| `HandshakeResults.FinalFrameIsCurrent` | pkg/progress/progress.go:187-203 | the frame that stays on the terminal after Stop shows nothing older than the call of Stop |
| `HandshakeResults.FinalFrameShowsContent` | pkg/progress/progress.go:187-203 | if no setter came between the call of Stop and the reading of the last line it is the spinner, every bar in order and the message as they were at the call, and nothing else, whatever is set later |
| `HandshakeResults.FinalFrameShowsBar` | pkg/progress/progress.go:187-203 | as long as no setter has come since the call it is what the bar holds |
| `HandshakeFinalFrame.MessageSetDuringStopShows` | cmd/image-builder/upload.go:66-74 | a run in which a message set during Stop is shown, and not the one held at the call |
| `HandshakeResults.SetProgressTakesEffect` | pkg/progress/progress.go:131-156 | whatever comes between its accesses, Start and Stop included, SetProgress returns with its level at the text and at done and total plus one and the others as they were, or refuses and changes nothing; nothing else changes a level |
| `HandshakeResults.OutputIsConserved` | pkg/progress/progress.go:231-267 | flushed output followed by the buffer is all that was written, in order, once |
| `HandshakeResults.NothingFlushedBetweenSessions` | pkg/progress/progress.go:238-241 | outside of a session nothing is flushed however often Stop is called, and the buffer keeps what is written |
| `HandshakeResults.FlushFollowsFinalFrame` | pkg/progress/progress.go:254-267 | only the flush changes what was flushed: it writes the erase sequence and the buffer to the terminal, once a session, after the final frame; Stop without a running renderer does nothing |
| `HandshakeResults.StopFlushesWhatWasWritten` | pkg/progress/progress.go:261-267 | when Stop returns everything has been flushed that was written when it looked at the buffer |
| `HandshakeShutdown.ShutdownIsBounded` | pkg/progress/progress.go:190-197 | once the renderer has the request each of its steps brings the close one nearer, from at most levels + 7; setters add to that only before the bars are counted |
| `HandshakeShutdown.RendererStepsAreBounded` | pkg/progress/progress.go:190-197 | over a whole run up to the close the renderer takes at most levels + 7 steps, and a number fixed by the counted bars once they are counted |
| `HandshakeShutdown.StopCanReturn` | pkg/progress/progress.go:238-268 | from wherever Stop is, a bounded schedule lets it return: no deadlock |
| `HandshakeShutdown.TimeoutIsSafeIffClosed` | pkg/progress/progress.go:244-254 | when Stop's timer fires, all later runs are free of panics exactly if the channel was closed |
| `HandshakeShutdown.EarlyTimeoutHappens` | pkg/progress/progress.go:244-254 | a run of a fresh bar in which the timer fires too early and the renderer panics |
| `SyncWriter.WritesAreUntorn` | pkg/progress/syncwriter.go:17-22 | at any moment a sink is whole messages in lock order and a beginning of the holder's; each writer's order is kept |
| `SyncWriter.BuildLogIsMerge` | pkg/progress/command.go:129-141 | at any time the mutex is free the log is a merge of whole output chunks and whole status lines, these being the trace list or the list without the entry just appended; the internal buffer is exactly the chunks |
| `SyncWriter.EntriesInOrder` | pkg/progress/command.go:192-201 | what such a merge is: chunks as they are and lines with a newline behind each, in one order |
| `StatusLoop.ShowProgress` | pkg/progress/command.go:180-186 | nested reports never arrive out of order; each level reached holds its report's message and its done and total plus one, the others are as before |
| `StatusLoop.OneStatus` | pkg/progress/command.go:180-206 | one status updates the levels, the message, the traces with their log lines (message before trace), and the metrics |
| `StatusLoop.FollowStatuses` | pkg/progress/command.go:162-207 | after the stream every level holds the last report that reached it, and from a fresh bar there are as many as the greatest depth; traces and log agree line by line |
| `StatusLoop.TracesInOrder` | pkg/progress/command.go:194-201 | the traces are the messages and traces of the statuses in order |
| `StatusLoop.LinesInOrder` | pkg/progress/command.go:194-201 | their lines are the traces in order with a newline behind each |
| `StatusLoop.LastMessageStays` | pkg/progress/command.go:187-190 | the message that stays is the last one that is not empty |
| `StatusLoop.RunOSBuildWithProgress` | pkg/progress/command.go:117-219 | success exactly when the stream ended and the wait succeeded, otherwise which error with which log, a failed interrupt joined to it; process events, levels, traces, log and captured metrics of every run |
| `StatusLoop.InterruptedIffNotReaped` | pkg/progress/command.go:149-160 | the process is interrupted once, last, exactly when the run failed before it was reaped |
| `Metrics.SortSlowestFirst` | pkg/progress/metrics.go:36-39 | a sorted permutation, all that is used of the library's sort |
| `Metrics.PrintTopTen` | pkg/progress/metrics.go:41-48 | the printing loop stops after the tenth line |
| `Metrics.OsbuildStageMetrics.Add` | pkg/progress/metrics.go:21-29 | a named stage of more than a second is recorded at the end with pipeline, name and duration, nothing else |
| `Metrics.OsbuildStageMetrics.String` | pkg/progress/metrics.go:31-50 | the measurements are sorted in place, none lost, and reported |
| `Metrics.LinesConcat` | pkg/progress/metrics.go:41-48 | the lines stand in the order of the measurements |
| `Metrics.LineReads` | pkg/progress/metrics.go:43 | a line names pipeline, stage and duration |
| `Metrics.SecondsTextSays` | pkg/progress/metrics.go:43 | the hours, minutes and seconds printed add up to the duration but for the fraction of a second |
| `Metrics.TopTenPrinted` | pkg/progress/metrics.go:31-50 | over any interleaving the printed ones are the ten slowest recorded, in descending order also in whole seconds |
| `Metrics.PrintedDurationsAgree` | pkg/progress/metrics.go:36-50 | the printed durations depend only on which measurements were recorded |
| `CommandLine.NewOsbuildCmd` | pkg/progress/command.go:54-75 | which argument stands at which place, with the default cache size for none and the monitor options of a run with progress at the end |
| `CommandLine.ArgVectorReads` | pkg/progress/command.go:54-75 | a left-to-right parser recovers every value and both lists in order, whatever they look like |
| `CommandLine.ArgVectorDetermines` | pkg/progress/command.go:54-75 | different requests have different command lines, up to the default cache size |
| `Decimal.ValueIsPositional` | pkg/progress/command.go:63 | numerals have the most significant digit first |
| `Decimal.PrintIsCanonical` | pkg/progress/command.go:63 | and no leading zero |
| `Setup.Container.EnsureEnvironment` | pkg/setup/setup.go:20-81 | the sequence with its early returns does the commands in order up to the first failure, and none under the bind mount |
| `Setup.FailuresAreReported` | pkg/setup/setup.go:27-77 | the commands are attempted in their order up to the first failure, and success is returned exactly when none failed |
| `Setup.CommitPointIsSafe` | pkg/setup/setup.go:73-78 | over all histories the bind mount implies every earlier effect; at most one tmpfs and one bind mount exist |
| `Setup.RetryConverges` | pkg/setup/setup.go:18-81 | a success after any failures gives the clean state up to device file systems, one for each call that mounted one, and exactly it if and only if no earlier call did |
| `Setup.StackedAreDevMounts` | pkg/setup/setup.go:67-71 | over all histories the stacked device file systems are one for each call whose mount took effect |
| `Setup.CleanCallSucceeds` | pkg/setup/setup.go:20-81 | a call without failures succeeds after any history |
| `Setup.LaterCallsChangeNothing` | pkg/setup/setup.go:21-24 | after the bind mount every call succeeds and changes nothing |
| `Setup.RetryStacksDevtmpfs` | pkg/setup/setup.go:65-77 | a retry after a failed bind mount stacks a second device file system |
| `BibImg.New` | internal/bibimg/imagetypes.go:46-68 | which requests are accepted, and which error the others get |
| `BibImg.Exports` | internal/bibimg/imagetypes.go:72-83 | the exports in order of first occurrence |
| `BibImg.BuildsISO` | internal/bibimg/imagetypes.go:87-90 | the first type's kind is the kind of every type of an accepted request |
| `BibImg.Legacy` | internal/bibimg/imagetypes.go:92-99 | whether any type is legacy |
| `BibImg.PositionalLookupIff` | cmd/image-builder/bib_main.go:391-394 | for any list, the lookup by position after deduplication is right exactly when nothing up to it repeats |
| `BibImg.ExportLookupIff` | cmd/image-builder/bib_main.go:341-346 | the export at a type's position is in range and right exactly when the exports up to it are distinct |
| `BibImg.UploadLoop` | cmd/image-builder/bib_main.go:391-401 | the directories uploaded from, the first failed upload or the first position out of range, and when all cloud images come from their own export |
| `BibImg.UploadsInOrder` | cmd/image-builder/bib_main.go:391-395 | the directories are in the order of the images |
| `BibImg.UploadsCounted` | cmd/image-builder/bib_main.go:391-395 | one for each cloud image |
| `BibImg.UploadsRightIff` | cmd/image-builder/bib_main.go:391-401 | all uploads are right exactly when no export repeats up to any cloud image |
| `BibImg.SharedExportBreaksUpload` | cmd/image-builder/bib_main.go:391-401 | a raw or cloud image before a cloud image makes the uploads wrong |
| `BibImg.RawThenAmiIsOutOfRange` | cmd/image-builder/bib_main.go:391-395 | an accepted request whose list of exports is too short for the cloud image's position |
| `Versions.ComparisonIsTotalPreorder` | test/scripts/check-osbuild-version:77-98 | antisymmetric in sign and transitive over all version strings, although each pair has its own padding |
| `Versions.FirstDifferenceDecides` | test/scripts/check-osbuild-version:77-98 | the version with the smaller number at the first difference is the older one and compares as -1 |
| `Versions.OlderIsLess` | test/scripts/check-osbuild-version:62-98 | numbers are compared by value, and a further number counts |
| `Versions.UnreadableIsZero` | test/scripts/check-osbuild-version:70-71 | what does not begin with a number is version zero |
| `Versions.EqualIffSameTuple` | test/scripts/check-osbuild-version:77-98 | zero exactly when the tuples agree after dropping trailing zeros |
| `Versions.ShownVersionReads` | test/scripts/check-osbuild-version:62-74 | parsing a printed tuple, also with a suffix such as "~rc1", gives the tuple |
| `Tls.ExtractTLSKeys` | cmd/image-builder/bib_mtls.go:20-59 | conflict, none or the contents of the one key's files, each in its place, or the first of them that is unreadable: by the map alone and not by the order of iteration |
| `CallLog.MockCmd.Call` | internal/testutil/testutil.go:26-31 | the script's loop appends the record of one call |
| `CallLog.CallArgsList` | internal/testutil/testutil.go:44-61 | the reading loop gives the calls of the non-empty lines |
| `CallLog.RoundTripIff` | internal/testutil/testutil.go:26-61 | reading the record gives exactly the calls with arguments if and only if no argument holds a newline or NUL, and all calls if each has arguments |
| `CallLog.EmptyCallIsLeftOut` | internal/testutil/testutil.go:51-53 | which calls are left out and that the others keep their order |
| `Text.JoinOfSplit` | internal/testutil/testutil.go:50-55 | splitting loses nothing: the parts with the separator between them are the text |
| `PackageSets.PackagesOf` | cmd/image-builder/describeimg.go:94-114 | increasing lists with exactly the names that some set includes, and excludes |
| `PackageSets.PackageSetsFor` | cmd/image-builder/describeimg.go:93-119 | so for every pipeline, in any order of iteration |
| `PackageSets.IncreasingIsCanonical` | cmd/image-builder/describeimg.go:104-113 | increasing lists with the same elements are equal: the description is canonical |
| `PackageSets.FirstDifferenceDecides` | cmd/image-builder/describeimg.go:104-113 | increasing by the first character that differs, the end of a name coming first |
| `Artifact.UserNameGetsExtensionOnce` | cmd/image-builder/build.go:65-68 | the user's name is kept if it has the extension and gets it otherwise; without a dot in the file name there is none |
| `Artifact.UserNameSpelled` | cmd/image-builder/build.go:65-68 | the extension is what follows the first dot of the image's file name |
| `Artifact.DefaultNameSpelled` | cmd/image-builder/main.go:85-87 | the default name is distribution, type and architecture with dashes between, and the extension |
| `Artifact.DefaultNameIsDetectedIff` | cmd/image-builder/upload.go:234-252 | the architecture is read back from a default name if and only if distribution and type have no dot or the text before the first dot ends in it |
| `Artifact.DefaultNameIsDetected` | cmd/image-builder/upload.go:234-252 | it is for every distribution and type without a dot |
| `Artifact.DottedDistroHidesArch` | cmd/image-builder/upload.go:240-250 | with a dot in the distribution's name the architecture plays no part |
| `Artifact.DottedTypeHidesArch` | cmd/image-builder/upload.go:240-250 | nor with a dot in the type's name: what precedes that dot is read |
| `Artifact.MinorReleaseIsNotDetected` | cmd/image-builder/main.go:69-88 | the default name of a minor release is one of those |

## Left out

- Overlapping calls of Stop, as when a signal arrives while the build command is stopping: the nil check in Stop is not synchronised, so calls of Start and Stop are assumed not to overlap.
- Errors of the bar library, whose text Stop would print, and its rendering: the texts are arbitrary functions of the content and the time within the assumptions above.
- The log lines of the two warnings (a progress error, which is proved not to occur, and Stop's timeout) as output on the same terminal.
- A terminal of unknown width, for which no line is shortened, and a resize while the bar runs.
- Scrolling: the grid of rows is unbounded, so a block taller than the terminal is not modelled.
- Write errors and short writes of the underlying writers.
- StatusLoop.RunOSBuildWithProgress: the order of its log lines relative to the process output is not in it but in SyncWriter.BuildLogIsMerge; the debug progress bar and the run without progress are not modelled.
- Setup.Container.EnsureEnvironment: the two mount-point checks are taken to be accurate; the commands are abstract effects.
- BibImg.UploadLoop: what an upload does is not modelled, only whether it fails.
- CallLog.RoundTripIff: arguments hold no backslash, since the shell's echo would interpret it; echo is any function with its documented effect on other text.
- Versions.ShownVersionReads: digits are the ASCII ones, while the script's pattern also accepts other decimal digits.
- Artifact.DefaultNameIsDetectedIff: only the part of the output path after the last slash matters; the cleaning of user-supplied paths is not modelled, and reading an architecture's name is a parameter.
- Command-line construction and flags, manifest generation, repository and blueprint loading, image filtering: thin layers over libraries.
- Cloud uploaders and their progress readers: network clients.
- Verbose and debug progress bars, logging, memory profiling, version and system reports: single branches and formatting that would add only easy members.
