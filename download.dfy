/**
 * The download worker of ImDL's main program and the click that starts it.
 * The worker makes sure yt-dlp.exe is present, asks yt-dlp for the file
 * name the download will get, runs the download and reports the name with
 * the container's extension. The model is sequential: the worker runs to
 * completion inside the click, the network fetch is reduced to the HTTP
 * status it returns, and the operating system to a runner chosen by the
 * caller. What spdlog receives is kept as a sequence of records; what the
 * runner was asked to do is kept as a sequence of calls, each tagged with
 * whether the busy flag was down at that moment.
 */
module Download {
  import opened Logging
  import opened Process
  import opened Commands
  import UrlCheck
  import Strings
  import Options

  /** The HTTP status of a successful fetch of the executable. */
  const StatusOk: int := 200

  const ToolMissing: string := "yt-dlp.exe not found, downloading..."
  const ToolPresent: string := "yt-dlp.exe already exists, skipping download."
  const FetchFailed: string := "Download failed: "
  const NoName: string := "Could not determine output filename."
  const Running: string := "Running command: "
  const Complete: string := "Download complete: "
  const Starting: string := "Starting download.."

  /** One command handed to the runner, and whether a download was marked in progress then. */
  datatype Call = Call(command: string, whileBusy: bool)

  /** Everything one run of the worker does: its records, its commands, and whether the tool exists afterwards. */
  datatype Run = Run(log: seq<LogRecord>, commands: seq<string>, toolPresent: bool)

  /** The records of the presence check: a skip notice, or a fetch notice and, unless it succeeded, its status. */
  function FetchLog(present: bool, status: int): (r: seq<LogRecord>)
    ensures present ==> r == [LogRecord(Debug, ToolPresent)]
    ensures !present ==> |r| >= 1 && r[0] == LogRecord(Info, ToolMissing)
    ensures !present ==> (|r| == 2 <==> status != StatusOk)
    ensures forall k :: 0 <= k < |r| ==> (r[k].level == Err <==> !present && status != StatusOk && k == 1)
  {
    if present then [LogRecord(Debug, ToolPresent)]
    else if status == StatusOk then [LogRecord(Info, ToolMissing)]
    else [LogRecord(Info, ToolMissing), LogRecord(Err, FetchFailed + IntToString(status))]
  }

  /**
   * What the worker does for `url` when the tool's presence is `present`, a
   * fetch would answer `status`, and `runner` plays the operating system.
   */
  function Worker(audioOnly: bool, url: string, present: bool, status: int, runner: string -> ProcessOutcome): (r: Run)
    ensures r.toolPresent == (present || status == StatusOk)
    ensures 1 <= |r.commands| <= 2 && r.commands[0] == NameQueryCommand(url)
    ensures |r.commands| == 2 <==> Captured(runner(NameQueryCommand(url))) != ""
  {
    var query := NameQueryCommand(url);
    var name := Captured(runner(query));
    var head := FetchLog(present, status) + FailureLog(runner(query));
    var presentAfter := present || status == StatusOk;
    if name == "" then
      Run(head + [LogRecord(Err, NoName)], [query], presentAfter)
    else
      var transfer := TransferCommand(audioOnly, url);
      Run(head + [LogRecord(Debug, Running + transfer)] + FailureLog(runner(transfer))
            + [LogRecord(Info, Complete + FinalName(name, audioOnly))],
          [query, transfer], presentAfter)
  }

  /** The calls a run makes, all of them while the busy flag is down. */
  function Busy(commands: seq<string>): (r: seq<Call>)
    ensures |r| == |commands|
    ensures forall k :: 0 <= k < |r| ==> r[k].command == commands[k] && r[k].whileBusy
  {
    seq(|commands|, k requires 0 <= k < |commands| => Call(commands[k], true))
  }

  lemma Assoc<T>(a: seq<T>, b: seq<T>, c: seq<T>)
    ensures a + b + c == a + (b + c)
  {
  }

  lemma BusyPair(first: string, second: string)
    ensures Busy([first]) == [Call(first, true)]
    ensures Busy([first, second]) == [Call(first, true), Call(second, true)]
  {
  }

  /**
   * The first command is always the name query, whatever the fetch
   * answered: a failed fetch is logged and the worker carries on.
   */
  lemma FetchFailureDoesNotAbort(audioOnly: bool, url: string, present: bool, status: int, runner: string -> ProcessOutcome)
    ensures Worker(audioOnly, url, present, status, runner).commands[0] == NameQueryCommand(url)
    ensures Worker(audioOnly, url, present, status, runner).commands == Worker(audioOnly, url, present, StatusOk, runner).commands
    ensures !present && status != StatusOk ==>
      Worker(audioOnly, url, present, status, runner).log[1] == LogRecord(Err, FetchFailed + IntToString(status))
    ensures Worker(audioOnly, url, present, status, runner).toolPresent <==> present || status == StatusOk
  {
  }

  /** An empty name stops the worker before the download, with an error as its last record. */
  lemma EmptyNameStops(audioOnly: bool, url: string, present: bool, status: int, runner: string -> ProcessOutcome)
    ensures var w := Worker(audioOnly, url, present, status, runner);
      (Captured(runner(NameQueryCommand(url))) == "" <==> w.commands == [NameQueryCommand(url)]) &&
      (Captured(runner(NameQueryCommand(url))) == "" <==> w.log[|w.log| - 1] == LogRecord(Err, NoName))
  {
    var w := Worker(audioOnly, url, present, status, runner);
    var last := w.log[|w.log| - 1];
    if Captured(runner(NameQueryCommand(url))) != "" {
      assert last.level == Info;
      assert |w.commands| == 2;
    }
  }

  /**
   * With a name, the worker runs the download command and then reports
   * completion, with the final name's extension, whatever the download
   * command did: its output is never looked at.
   */
  lemma CompletionReported(audioOnly: bool, url: string, present: bool, status: int, runner: string -> ProcessOutcome)
    requires Captured(runner(NameQueryCommand(url))) != ""
    ensures var w := Worker(audioOnly, url, present, status, runner);
      var name := Captured(runner(NameQueryCommand(url)));
      w.commands == [NameQueryCommand(url), TransferCommand(audioOnly, url)] &&
      w.log[|w.log| - 1] == LogRecord(Info, Complete + FinalName(name, audioOnly)) &&
      Extension(FinalName(name, audioOnly)) == (if audioOnly then ".mp3" else ".mp4")
  {
    FinalNameShape(Captured(runner(NameQueryCommand(url))), audioOnly);
  }

  /**
   * A pipe or spawn failure on the name query looks to the worker exactly
   * like a query that printed nothing: same commands, same final record;
   * the only trace of the failure is the runner's own error record.
   */
  lemma FailureLooksEmpty(audioOnly: bool, url: string, present: bool, status: int,
                          failing: string -> ProcessOutcome, silent: string -> ProcessOutcome)
    requires failing(NameQueryCommand(url)).PipeFailed? || failing(NameQueryCommand(url)).SpawnFailed?
    requires silent(NameQueryCommand(url)) == Spawned([])
    ensures var f := Worker(audioOnly, url, present, status, failing);
      var s := Worker(audioOnly, url, present, status, silent);
      var n := |FetchLog(present, status)|;
      f.commands == s.commands &&
      f.toolPresent == s.toolPresent &&
      f.log == s.log[..n] + FailureLog(failing(NameQueryCommand(url))) + s.log[n..] &&
      |FailureLog(failing(NameQueryCommand(url)))| == 1
  {
    var query := NameQueryCommand(url);
    assert Captured(silent(query)) == StripLineBreaks(ReadUntilStop([]));
    assert ReadUntilStop([]) == "";
    assert Removed("", '\n') == "";
    assert Captured(silent(query)) == "";
  }

  /**
   * The line feed yt-dlp prints after the name does not reach the report:
   * a name query answering `name` and a line feed in one chunk ends in the
   * completion record for `name` with the mode's extension.
   */
  lemma NameLineFeedDropped(audioOnly: bool, url: string, present: bool, status: int,
                            runner: string -> ProcessOutcome, name: string)
    requires name != "" && '\n' !in name && '\r' !in name
    requires runner(NameQueryCommand(url)) == Spawned([Chunk(name + "\n")])
    ensures var w := Worker(audioOnly, url, present, status, runner);
      w.log[|w.log| - 1] == LogRecord(Info, Complete + FinalName(name, audioOnly))
  {
    CapturedDropsLineFeed(name);
    CompletionReported(audioOnly, url, present, status, runner);
  }

  /**
   * The pattern's '&' tail admits '"' and blanks, and the download command
   * only wraps the URL in a pair of quotes. So the accepted text
   * "youtu.be/AAAAAAAAAAA&\" --exec \"calc" puts a '"' strictly inside the
   * quoted URL at the end of the command, right before " --exec ": a
   * receiver that splits its arguments at quotes sees an extra option.
   * Building the command stays injective all the same.
   */
  lemma AcceptedUrlCanCloseQuote()
    ensures var url := UrlCheck.ShortHost + "AAAAAAAAAAA" + ("&" + "\" --exec " + "\"calc");
      var quoted := Strings.Quoted(url);
      var i := |UrlCheck.ShortHost| + 13;
      && UrlCheck.IsValidUrl(url)
      && Strings.EndsWith(TransferCommand(true, url), quoted)
      && 0 < i < |quoted| - 1 && quoted[i] == '"'
      && quoted[i + 1..i + 9] == " --exec "
      && ParseTransfer(TransferCommand(true, url)) == Options.Some((true, url))
  {
    var url := UrlCheck.ShortHost + "AAAAAAAAAAA" + ("&" + "\" --exec " + "\"calc");
    UrlCheck.QuoteTailAccepted();
    QuoteInsideQuoted(UrlCheck.ShortHost + "AAAAAAAAAAA", "&", "\"calc");
    TransferCommandShape(true, url);
    TransferRoundTrip(true, url, TransferCommand(true, url));
  }

  /** A '"' one place into the part after `front` sits at that place of the quoted text, past its opening quote. */
  lemma QuoteInsideQuoted(front: string, first: string, rest: string)
    requires |first| == 1
    ensures var quoted := Strings.Quoted(front + (first + "\" --exec " + rest));
      && |front| + 2 < |quoted| - 1 && quoted[|front| + 2] == '"'
      && quoted[|front| + 3..|front| + 11] == " --exec "
  {
    var injected := "\" --exec ";
    var quoted := Strings.Quoted(front + (first + injected + rest));
    var i := |front| + 2;
    assert quoted == ("\"" + front + first) + injected + (rest + "\"");
    assert quoted[i..i + 9] == injected;
  }

  /**
   * Notices of a run with the tool in place and every command it runs
   * spawned: a resolved name gives one info record and no error; an empty
   * name gives one error record, no info record, and no download command.
   */
  lemma NoticeCounts(audioOnly: bool, url: string, status: int, runner: string -> ProcessOutcome)
    requires runner(NameQueryCommand(url)).Spawned?
    requires Captured(runner(NameQueryCommand(url))) != "" ==> runner(TransferCommand(audioOnly, url)).Spawned?
    ensures var w := Worker(audioOnly, url, true, status, runner);
      Captured(runner(NameQueryCommand(url))) != "" ==> CountLevel(w.log, Info) == 1 && CountLevel(w.log, Err) == 0
    ensures var w := Worker(audioOnly, url, true, status, runner);
      Captured(runner(NameQueryCommand(url))) == "" ==>
        CountLevel(w.log, Info) == 0 && CountLevel(w.log, Err) == 1 && |w.commands| == 1
  {
    var query := NameQueryCommand(url);
    var transfer := TransferCommand(audioOnly, url);
    var name := Captured(runner(query));
    WorkerCases(audioOnly, url, true, status, runner, query, name, transfer);
    var head := FetchLog(true, status) + FailureLog(runner(query));
    assert head == [LogRecord(Debug, ToolPresent)];
    if name == "" {
      CountLevelAppend(head, [LogRecord(Err, NoName)], Info);
      CountLevelAppend(head, [LogRecord(Err, NoName)], Err);
    } else {
      var started := [LogRecord(Debug, Running + transfer)];
      var finished := [LogRecord(Info, Complete + FinalName(name, audioOnly))];
      assert FailureLog(runner(transfer)) == [];
      assert head + started + [] + finished == head + started + finished;
      CountLevelAppend(head + started, finished, Info);
      CountLevelAppend(head, started, Info);
      CountLevelAppend(head + started, finished, Err);
      CountLevelAppend(head, started, Err);
    }
  }

  /** The two ways a run can go, with the name query, its answer and the download command named. */
  lemma WorkerCases(audioOnly: bool, url: string, present: bool, status: int, runner: string -> ProcessOutcome,
                    query: string, name: string, transfer: string)
    requires query == NameQueryCommand(url) && name == Captured(runner(query)) && transfer == TransferCommand(audioOnly, url)
    ensures Worker(audioOnly, url, present, status, runner).toolPresent == (present || status == StatusOk)
    ensures name == "" ==>
      Worker(audioOnly, url, present, status, runner).log == FetchLog(present, status) + FailureLog(runner(query)) + [LogRecord(Err, NoName)] &&
      Worker(audioOnly, url, present, status, runner).commands == [query]
    ensures name != "" ==>
      Worker(audioOnly, url, present, status, runner).log ==
        FetchLog(present, status) + FailureLog(runner(query)) + [LogRecord(Debug, Running + transfer)] + FailureLog(runner(transfer))
          + [LogRecord(Info, Complete + FinalName(name, audioOnly))] &&
      Worker(audioOnly, url, present, status, runner).commands == [query, transfer]
  {
  }

  /**
   * The worker's state as the program keeps it: the busy flag, whether the
   * executable exists on disk, what was logged and what was run.
   */
  class Downloader {
    /** True when no download is in progress; the button is disabled while it is false. */
    var downloadComplete: bool
    var toolPresent: bool
    var log: seq<LogRecord>
    var calls: seq<Call>

    constructor (present: bool)
      ensures downloadComplete && toolPresent == present && log == [] && calls == []
    {
      downloadComplete := true;
      toolPresent := present;
      log := [];
      calls := [];
    }

    /** Fetches the executable unless it is there; a failed fetch is only logged. */
    method EnsureYtDlp(fetchStatus: int)
      modifies this
      ensures log == old(log) + FetchLog(old(toolPresent), fetchStatus)
      ensures toolPresent == (old(toolPresent) || fetchStatus == StatusOk)
      ensures calls == old(calls) && downloadComplete == old(downloadComplete)
    {
      if !toolPresent {
        log := log + [LogRecord(Info, ToolMissing)];
      } else {
        log := log + [LogRecord(Debug, ToolPresent)];
        return;
      }
      if fetchStatus == StatusOk {
        toolPresent := true;
      } else {
        log := log + [LogRecord(Err, FetchFailed + IntToString(fetchStatus))];
      }
    }

    /** One call of the process runner: the command is recorded and the runner's error records appended. */
    method Capture(command: string, runner: string -> ProcessOutcome) returns (output: string)
      modifies this
      ensures output == Captured(runner(command))
      ensures calls == old(calls) + [Call(command, !downloadComplete)]
      ensures log == old(log) + FailureLog(runner(command))
      ensures toolPresent == old(toolPresent) && downloadComplete == old(downloadComplete)
    {
      var errors;
      output, errors := RunCommandAndCaptureOutput(command, runner);
      calls := calls + [Call(command, !downloadComplete)];
      log := log + errors;
    }

    /**
     * The worker: the flag goes down on entry and back up on both exits,
     * and every command it runs is run while the flag is down.
     */
    method DownloadThread(audioOnly: bool, url: string, fetchStatus: int, runner: string -> ProcessOutcome)
      modifies this
      ensures downloadComplete
      ensures var w := Worker(audioOnly, url, old(toolPresent), fetchStatus, runner);
        log == old(log) + w.log && calls == old(calls) + Busy(w.commands) && toolPresent == w.toolPresent
    {
      ghost var present0 := toolPresent;
      ghost var log0, calls0 := log, calls;
      downloadComplete := false;
      EnsureYtDlp(fetchStatus);
      ghost var fetched := FetchLog(present0, fetchStatus);
      var nameCmd := NameQueryCommand(url);
      var resultFilename := Capture(nameCmd, runner);
      ghost var head := fetched + FailureLog(runner(nameCmd));
      Assoc(log0, fetched, FailureLog(runner(nameCmd)));
      assert log == log0 + head;
      var downloadCmd := TransferCommand(audioOnly, url);
      WorkerCases(audioOnly, url, present0, fetchStatus, runner, nameCmd, resultFilename, downloadCmd);
      BusyPair(nameCmd, downloadCmd);
      if resultFilename == "" {
        log := log + [LogRecord(Err, NoName)];
        Assoc(log0, head, [LogRecord(Err, NoName)]);
        downloadComplete := true;
        return;
      }
      var started := LogRecord(Debug, Running + downloadCmd);
      var finished := LogRecord(Info, Complete + FinalName(resultFilename, audioOnly));
      log := log + [started];
      Assoc(log0, head, [started]);
      var downloadOutput := Capture(downloadCmd, runner);
      ghost var transferErrors := FailureLog(runner(downloadCmd));
      Assoc(log0, head + [started], transferErrors);
      log := log + [finished];
      Assoc(log0, head + [started] + transferErrors, [finished]);
      Assoc(calls0, [Call(nameCmd, true)], [Call(downloadCmd, true)]);
      downloadComplete := true;
    }

    /**
     * A press of the download button. A disabled button does nothing;
     * otherwise the start is logged and the worker runs on the form's text
     * and format. Since the button needs a matching URL, every command the
     * worker runs carries a URL the pattern accepted.
     */
    method Click(form: UrlCheck.DownloadForm, fetchStatus: int, runner: string -> ProcessOutcome)
      modifies this
      ensures !old(form.ButtonEnabled(downloadComplete)) ==>
        log == old(log) && calls == old(calls) && toolPresent == old(toolPresent) && downloadComplete == old(downloadComplete)
      ensures old(form.ButtonEnabled(downloadComplete)) ==>
        var w := Worker(form.format == UrlCheck.MP3, form.buffer, old(toolPresent), fetchStatus, runner);
        log == old(log) + [LogRecord(Info, Starting)] + w.log &&
        calls == old(calls) + Busy(w.commands) &&
        toolPresent == w.toolPresent && downloadComplete
      ensures form.Valid() && |calls| > |old(calls)| ==> UrlCheck.IsValidUrl(form.buffer)
    {
      if !form.ButtonEnabled(downloadComplete) {
        return;
      }
      log := log + [LogRecord(Info, Starting)];
      DownloadThread(form.format == UrlCheck.MP3, form.buffer, fetchStatus, runner);
    }
  }
}
