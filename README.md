# ImDL core, modelled in Dafny

ImDL is a small Windows front end for yt-dlp. The user pastes a video URL
into an ImGui window, picks MP3 or MP4, and presses a button. A worker
thread then:

1. makes sure `yt-dlp.exe` is present and fetches it if it is not;
2. asks yt-dlp for the file name the download will get;
3. runs the download;
4. logs the final name with the container's extension.

Every log record goes to spdlog, and a custom sink mirrors each record
into a queue of timed toast notifications. The render loop ages, fades
and stacks those toasts once per frame.

The model has one module per part of that core:

| file | module | what it holds |
|---|---|---|
| `options.dfy` | `Options` | the `Option` type |
| `logging.dfy` | `Logging` | spdlog's levels, the record a sink receives, and the decimal printing of error and status codes |
| `strings.dfy` | `Strings` | prefix, suffix, infix and quoting helpers with their lemmas |
| `toasts.dfy` | `Toasts` | the toast queue as a class over `seq<Toast>`: `Show`, and the aging and stacking half of `RenderAll`, as loops over the snapshot |
| `toast_sink.dfy` | `ToastSink` | the sink: no context means no toast, otherwise the level is mapped and one toast is shown |
| `process.dfy` | `Process` | the process runner: the read loop and the two erase-remove passes, in place on an array |
| `commands.dfy` | `Commands` | the two yt-dlp command lines, with parsers showing that building them is injective, and the final-name rule |
| `url.dfy` | `UrlCheck` | the URL pattern as a predicate, and the form state with the button guard |
| `download.dfy` | `Download` | the worker (`DownloadThread`, `EnsureYtDlp`) and the button click, run sequentially |

Things outside the program become parameters:

- the clock: `now`, `deltaTime`, and the frame times of the toast lemmas;
- text measurement: `textHeight`;
- the operating system: `runner: string -> ProcessOutcome`, which gives for each command a pipe failure, a spawn failure, or the successive results of the pipe reads;
- the network fetch: its HTTP status;
- whether `yt-dlp.exe` exists on disk: a boolean;
- whether an ImGui context exists: a boolean.

Behaviours of the code that the model keeps, including some a reader might not expect:

- A failed fetch of `yt-dlp.exe` is logged and the worker carries on (`Download.FetchFailureDoesNotAbort`). It does not fail the task.
- A pipe or spawn failure makes the runner return the empty string, the same value an empty successful run returns (`Download.FailureLooksEmpty`). The failing step shows only in an error record.
- "Download complete" is logged whatever the download command did. Its output is captured and never looked at (`Download.CompletionReported`).
- With `yt-dlp.exe` already present, a successful run logs two info records on its way to the sink: "Starting download.." from the click and "Download complete: …" from the worker (`Download.NoticeCounts`, `Download.Downloader.Click`). When the tool was missing, the fetch notice "yt-dlp.exe not found, downloading..." is a third (`Download.FetchLog`).
- The URL is wrapped in one pair of quotes and nothing more, and the pattern's `&` tail accepts `"` and blanks. So an accepted URL can close the quotes early and hand yt-dlp extra options, as `youtu.be/AAAAAAAAAAA&" --exec "calc` does (`Download.AcceptedUrlCanCloseQuote`). The command builders remain injective (`Commands.TransferRoundTrip`), but that does not rule this out.
- There is no task state machine. The only state is the `downloadComplete` flag. A start while busy is prevented by the disabled button (`UrlCheck.DownloadForm.ButtonEnabled`), not by a rejection path.

## Model

| member | source | states |
|---|---|---|
| Logging.IntToString | ImDL/src/main.cpp:180 | a printed status code is never empty and begins with '-' exactly when the code is negative; the digits after any sign read back as the code's magnitude |
| Logging.NatToStringRoundTrip | ImDL/src/main.cpp:28 | reading back the digits printed for an error code gives the code |
| Logging.NatToStringInjective | ImDL/src/main.cpp:51 | two different error codes never print as the same text |
| Toasts.NewToast | ImDL/include/widgets.h:36-47 | a new toast carries the message, level and time it was shown with, is fully opaque, visible, not fading, and keeps the queue invariant |
| Toasts.AgeToast | ImDL/include/widgets.h:79-96 | one toast through one pass: left as it was while inside its display time and not fading; dropped exactly when it is fading (already or from now on) and its opacity reaches zero; otherwise the same notice, fading from the display time on, losing fadeSpeed·delta of opacity while fading and still above zero |
| Toasts.Aged | ImDL/include/widgets.h:79-99 | a pass never adds toasts |
| Toasts.AgeOne | ImDL/include/widgets.h:79-96 | the loop body's statements on the copy of one toast compute exactly that toast's fate in the pass |
| Toasts.ToastHeight | ImDL/include/widgets.h:106 | a toast is the larger of its text height and 24, plus 10 of padding above and below |
| Toasts.ToastSystem.constructor | ImDL/include/widgets.h:223 | the queue starts empty |
| Toasts.ToastSystem.Show | ImDL/include/widgets.h:36-47 | the queue gains exactly one toast at its end: the message and level, stamped with the current time, opaque, not fading, with the default speeds; the queue invariant is kept |
| Toasts.ToastSystem.RenderAll | ImDL/include/widgets.h:56-218 | the queue becomes the survivors of one aging pass in their old order; the heights returned are those of the survivors newest first; each height is measured on the message wrapped to the text area's width; the stacking offset is the bottom inset minus each height plus margin; with time moving forward every stored toast stays well formed |
| Toasts.ReversedTwice | ImDL/include/widgets.h:210-218 | walking the snapshot backwards and writing the survivors back backwards restores queue order |
| Toasts.AgedAppend | ImDL/include/widgets.h:79-99 | aging distributes over concatenation: a toast's fate depends on that toast alone |
| Toasts.ShowThenAge | ImDL/include/widgets.h:36-96 | a toast shown in this frame survives this frame's pass unchanged, at the end of the queue |
| Toasts.AgedKeepsWellFormed | ImDL/include/widgets.h:79-96 | with a non-negative frame delta, kept toasts keep opacity in (0, 1], full opacity until fading, the default speeds, and visibility |
| Toasts.AgedPositions | ImDL/include/widgets.h:79-99 | the survivors are the aged states of an increasing choice of positions in the old queue, and no kept toast is missing |
| Toasts.AgeIgnoresLevel | ImDL/include/widgets.h:79-96 | whether a toast survives, and its new state, do not depend on its level |
| Toasts.RetentionIgnoresLevel | ImDL/include/widgets.h:116-166 | the level only picks colours and icons: queues that differ only in levels keep the same toasts |
| Toasts.StackSpanAtLeast | ImDL/include/widgets.h:204 | every drawn toast moves the stacking offset up by at least 54 |
| Toasts.ShownForDisplayTime | ImDL/include/widgets.h:82-87 | frames up to the display time leave a new toast untouched and fully opaque |
| Toasts.GoneAfterFade | ImDL/include/widgets.h:85-95 | a toast shown at time s is gone at the first frame at or after s + 3 + 4/3 |
| ToastSink.ToastLevelOf | ImDL/include/log.h:15-28 | err maps to Error, warn to Warning and debug to Debug, each in both directions; every other level stays at the default, Info |
| ToastSink.SinkRecord | ImDL/include/log.h:9-30 | without a context a record yields nothing; with one, it yields its payload and its mapped level |
| ToastSink.Log | ImDL/include/log.h:9-31 | the queue gains one toast for the record when a context exists and is left as it was otherwise |
| ToastSink.Mirrored | ImDL/include/log.h:9-31 | a stream of records leaves, when a context exists, one toast per record in the same order, each with its record's payload and mapped level; without a context it leaves none |
| ToastSink.MirroredCounts | ImDL/include/log.h:15-30 | error, warning and debug toasts correspond one to one with err, warn and debug records |
| Process.ReadUntilStop | ImDL/src/main.cpp:59-64 | the capture is empty exactly when the first read fails or delivers nothing, and otherwise starts with the first read's bytes |
| Process.ReadUntilStopIsPrefixConcat | ImDL/src/main.cpp:59-64 | the captured bytes are the concatenation of the reads before the first failed or empty read |
| Process.Removed | ImDL/src/main.cpp:70 | after one erase-remove pass the character is gone and the text is no longer than before |
| Process.RemovedKeepsCounts | ImDL/src/main.cpp:70 | one pass adds no character, and every other character keeps its number of occurrences |
| Process.StripLineBreaks | ImDL/src/main.cpp:70-71 | the captured text holds no line feed and no carriage return |
| Process.StripLineBreaksKeepsTheRest | ImDL/src/main.cpp:70-71 | the two passes keep exactly the characters that are not line breaks, in their order |
| Process.StripLineBreaksIdempotent | ImDL/src/main.cpp:70-71 | stripping twice is stripping once |
| Process.Captured | ImDL/src/main.cpp:20-73 | the text the runner returns holds no line feed and no carriage return, and is empty when the pipe or the process could not be created |
| Process.CapturedDropsLineFeed | ImDL/src/main.cpp:59-72 | a line printed with its line feed in one read is captured as the line alone |
| Process.EraseRemove | ImDL/src/main.cpp:70 | in place on the buffer, the kept characters slide to the front in order and the new length is returned |
| Process.StripInPlace | ImDL/src/main.cpp:70-71 | the two in-place passes compute the stripped text |
| Process.RunCommandAndCaptureOutput | ImDL/src/main.cpp:20-73 | a pipe or spawn failure returns the empty text and logs one error record with its code; a spawned process returns the non-break characters of the reads before the first stop |
| Commands.ModeOfFlags | ImDL/src/main.cpp:97-102 | the audio flags and the format flags can never be mistaken for one another |
| Commands.NameQueryRoundTrip | ImDL/src/main.cpp:79-85 | building the name query is injective: the query gives back its URL, and only the query for a URL parses to that URL |
| Commands.NameQueryShape | ImDL/src/main.cpp:82-85 | the name query is fixed up to the URL and ends with the quoted URL |
| Commands.TransferRoundTrip | ImDL/src/main.cpp:95-105 | building the download command is injective: it gives back its mode and URL, and only that command parses to them |
| Commands.TransferCommandShape | ImDL/src/main.cpp:95-105 | the audio flags follow the executable exactly for audio, the format flags exactly otherwise; the merge flag is always there; the command ends with the quoted URL |
| Commands.LastDot | ImDL/src/main.cpp:111-117 | the index found holds a dot with none after it; with no index there is no dot at all |
| Commands.StemAndExtension | ImDL/src/main.cpp:111-117 | a name is its stem followed by its extension |
| Commands.ReplaceExtensionParts | ImDL/src/main.cpp:113 | after the replacement the extension is the new one and the stem is the old one |
| Commands.ReplaceExtensionIdempotent | ImDL/src/main.cpp:116 | replacing the extension twice is replacing it once |
| Commands.FinalNameShape | ImDL/src/main.cpp:111-117 | the reported name ends in .mp3 for audio and .mp4 otherwise, and keeps the resolved stem |
| Commands.FinalNameExample | ImDL/src/main.cpp:111-118 | "clip.webm" is reported as "clip.mp3" for audio and "clip.mp4" for video |
| UrlCheck.IsValidUrl | ImDL/src/main.cpp:132 | an accepted text is at least as long as a short link's host followed by an eleven-character id |
| UrlCheck.UrlFromParts | ImDL/src/main.cpp:132 | every scheme, subdomain, host, eleven-character id and '&' tail the pattern allows, put together, is accepted |
| UrlCheck.UrlParts | ImDL/src/main.cpp:132 | every accepted text splits into such parts |
| UrlCheck.PlaceholderAccepted | ImDL/src/main.cpp:131 | the text box's placeholder URL is accepted |
| UrlCheck.ShortLinkAccepted | ImDL/src/main.cpp:132 | a short link without a scheme and with an '&' tail is accepted |
| UrlCheck.ShortIdRejected | ImDL/src/main.cpp:132 | a ten-character id is refused |
| UrlCheck.QuestionMarkTailRejected | ImDL/src/main.cpp:132 | a '?' after the id is refused |
| UrlCheck.DownloadForm.constructor | ImDL/src/main.cpp:128-137 | the box starts empty and invalid, with MP4 selected |
| UrlCheck.DownloadForm.Edit | ImDL/src/main.cpp:131-134 | an edit stores the text and sets the flag to whether the pattern matches it |
| UrlCheck.DownloadForm.SelectFormat | ImDL/src/main.cpp:139-156 | the combo sits in the button's disabled block: the choice is taken exactly when the button is enabled and ignored otherwise; nothing else changes |
| UrlCheck.DownloadForm.ButtonEnabled | ImDL/src/main.cpp:139 | the button is enabled exactly when the text matches and no download is running, and never while one runs |
| Download.Worker | ImDL/src/main.cpp:75-121 | a run always starts with the name query; it runs the download command exactly when the name is not empty; the tool is present afterwards exactly when it was or the fetch returned 200 |
| Download.FetchLog | ImDL/src/main.cpp:163-182 | a present tool logs only the skip notice; a missing one logs the fetch notice, then the status exactly when it is not 200; that status record is the only error |
| Download.FetchFailureDoesNotAbort | ImDL/src/main.cpp:75-92 | whatever the fetch answered, the first command is the name query and the commands are those of a successful fetch; the failure is the second record; the tool is present afterwards exactly when it was or the status was 200 |
| Download.EmptyNameStops | ImDL/src/main.cpp:87-92 | the worker stops after the name query exactly when the name is empty, and then exactly its last record is the error |
| Download.CompletionReported | ImDL/src/main.cpp:94-118 | with a name, both commands run and the last record reports the final name with the mode's extension, whatever the download command did |
| Download.FailureLooksEmpty | ImDL/src/main.cpp:27-92 | a pipe or spawn failure on the name query gives the same commands, the same tool state and the same records as an empty answer, plus one runner error record |
| Download.NameLineFeedDropped | ImDL/src/main.cpp:70-118 | yt-dlp's line feed after the name does not reach the reported name |
| UrlCheck.QuoteTailAccepted | ImDL/src/main.cpp:132 | the '&' tail accepts '"' and blanks: a URL whose tail is `&" --exec "calc` is accepted |
| Download.AcceptedUrlCanCloseQuote | ImDL/src/main.cpp:105-132 | an accepted URL, quoted as the download command quotes it, can hold a '"' strictly inside the quotes followed by ` --exec `, although the command still parses back to that URL |
| Download.NoticeCounts | ImDL/src/main.cpp:75-121 | with the tool present and every command it runs spawned, a name gives one info record and no error record; an empty name gives one error record, no info record and no download command |
| Download.Downloader.constructor | ImDL/src/main.cpp:16-17 | no download is in progress at start |
| Download.Downloader.EnsureYtDlp | ImDL/src/main.cpp:163-182 | appends the presence check's records; the tool is present afterwards exactly when it was or the fetch returned 200 |
| Download.Downloader.Capture | ImDL/src/main.cpp:109 | one runner call: the command is recorded with the flag's value and the runner's error records are logged |
| Download.Downloader.DownloadThread | ImDL/src/main.cpp:75-121 | the log, the commands and the tool state are exactly the worker's; every command runs while the flag is down; the flag is back up on both exits |
| Download.Downloader.Click | ImDL/src/main.cpp:139-153 | a disabled button changes nothing; an enabled one logs the start and runs the worker on the box's text and format; any command that runs carries a URL the pattern accepted |

## Left out

- Win32 pipes, handles, `CreateProcessA` and `ReadFile` are replaced by the `runner` stub. Error codes are plain numbers. Handle closing is not modelled.
- The 512-byte read buffer: the stub's chunks are not bounded by it.
- Threads: the `jthread`, the join before a restart, the mutex around the toast queue, and the atomic flag's visibility across threads. The worker runs to completion inside the click. So the model cannot show the window where the flag is still up after a click, toasts lost between the snapshot and the write-back, or the worker reading the text box after the user changed it.
- The HTTP fetch is reduced to its status, and writing the file to disk to a boolean. The fetched bytes are not modelled.
- Drawing: window setup, colours, icons, fonts, clip rectangles, the horizontal position, the style alpha, and the button's two labels.
- The logger set-up (`SetupLogger`): the console sink, and the level filter that drops debug records in release builds. The worker's records are not fed through `ToastSink.Log` automatically; `ToastSink.Mirrored` states what the sink makes of a stream of them.
- `wWinMain` and the frame driver, which only call the parts modelled here.
- Time, opacity and sizes are reals. Single-precision rounding is not modelled. One `now` stands for the per-toast `GetTime` reads of one frame.
- UrlCheck.IsValidUrl: the `std::regex` engine is replaced by a left-to-right predicate. `\w` is ASCII letters, digits and underscore, and `.` excludes line feed and carriage return. The text box's terminating NUL and its 255-character limit become a precondition of `Edit`.
- Commands.Stem: `std::filesystem::path::replace_extension` is modelled as "everything up to the last dot of the whole name". The model does not treat a leading dot (".bashrc"), a dot in a directory part, or the names "." and ".." the way the standard library does.
