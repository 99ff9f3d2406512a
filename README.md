# ip-cam-recorder: supervisor and health monitor, modelled in Dafny

The recorder runs `ffmpeg` to copy an RTSP camera stream into time-boxed MP4
segments under `<out_path>/<YYYYMMDD>/`. A supervisor object
(`FFmpegRecorder`) starts, stops and restarts the process. It splits the
process's output into lines and follows the `[segment ...] Opening '<file>'
for writing` lines to know the current segment file. A monitor loop in
`main.py` runs once per interval. Each tick it makes today's date directory
when the day has changed, and tomorrow's only within 180 seconds of midnight
and only when it differs from the one last made. It deletes date directories
older than the retention window. It is meant to restart the recorder when the
current file's name and size stop changing for longer than a threshold; as
shipped it never does (see "## Findings").

This project models those pieces and proves properties about them:

- `line_splitter.dfy` (`LineSplitter`) models the newline / carriage-return
  splitter as a specification function `Feed` over decoded characters. The
  source's nested read loop is the method `SplitChunks`, proved equal to
  `Feed` of the concatenated chunks.
- `segment_pattern.dfy` (`SegmentPattern`) models what
  `re.match(".+?'(.+?)'.*")` matches and captures. It also models the segment
  line test and the fold of `_current_filename` over the lines before the
  `None` sentinel.
- `ffmpeg_command.dfy` (`FFmpegCommand`) models the argument vector built in
  the constructor, including the `rtsp`-only check.
- `recorder.dfy` (`Recorder`) holds the class `FFmpegRecorder`. Its fields are
  `_running`, `_recording`, `_event`, `_recording_thread`, `_process`,
  `_lines` and `_current_filename`. Its methods are `start`, `stop`,
  `restart`, `current_filename`, `is_running`, the consumer
  `_process_stdout`, and the field effects of the recording thread. Thread
  liveness and the clock are inputs: `stop` reads a trace of
  `(alive, elapsed)` observations, one per evaluation of its kill-loop guard.
- `day_clock.dfy` (`DayClock`) models the day arithmetic. Python's
  `int(x / 86400)` truncates toward zero.
- `retention.dfy` (`Retention`) models the pruning scan over the sorted
  listing, which stops at the first path not below the boundary.
- `monitor.dfy` (`Monitor`) models one tick as a method over a record of the
  loop's locals. It uses `_is_notified`, the size probe and the stall
  decision. Notifications and restart requests are returned as actions.
- `text.dfy` (`Text`) and `wrappers.dfy` (`Wrappers`) are helpers: Python's
  string order, `startswith`, `in`, `str(int)`, POSIX `os.path.join`, and
  `Option`/`Result`.

## Model

| member | source | states |
|---|---|---|
| `LineSplitter.ReadsBeforeEof` | ffmpeg_recorder.py:81-92 | The reads `while line:` consumes: a prefix of the reads, all non-empty, followed by an empty read or the end. |
| `LineSplitter.SplitChunks` | ffmpeg_recorder.py:81-92 | The read loop over chunks and characters, ending at the first empty read, yields exactly the lines and buffer of `Feed` over the concatenation of the reads before it. |
| `LineSplitter.FeedConcat` | ffmpeg_recorder.py:82-92 | The buffer carries over between reads, so splitting chunk by chunk equals splitting the concatenation. |
| `LineSplitter.FeedExtendsLines` | ffmpeg_recorder.py:85-86 | Lines already put on the queue are never changed or withdrawn. |
| `LineSplitter.FeedEmitsCleanLines` | ffmpeg_recorder.py:85-91 | Starting from a clean buffer, no emitted line and no buffer ever holds `'\n'` or `'\r'`. |
| `LineSplitter.FeedWithoutNewline` | ffmpeg_recorder.py:88-91 | Without a newline nothing is emitted, and the buffer is exactly the text after the last `'\r'`. |
| `LineSplitter.FeedOneLine` | ffmpeg_recorder.py:85-91 | A newline-terminated run emits exactly one line, namely the text after its last `'\r'`, and leaves the buffer empty. |
| `LineSplitter.TrailingTextNotEmitted` | ffmpeg_recorder.py:83-92 | Text after the last newline of the stream is never emitted. |
| `LineSplitter.AfterLastReturnUnique` | ffmpeg_recorder.py:88-89 | "The text after the last carriage return" singles out one string. |
| `LineSplitter.ProgressResetExample` | ffmpeg_recorder.py:84-91 | `"a\r b\nc\n"` emits `[" b", "c"]` and leaves an empty buffer. |
| `SegmentPattern.FindQuote` | ffmpeg_recorder.py:5 | Returns the first quote at or after a position, or none when there is no quote there. |
| `SegmentPattern.MatchFileIsFirstMatch` | ffmpeg_recorder.py:5 | `FILE_PTT.match` succeeds iff some prefix/quote/capture/quote split exists with no newline before the closing quote; the capture lies between the least such pair of quotes. |
| `SegmentPattern.QuotedLineIsSegmentWriting` | ffmpeg_recorder.py:57 | A `[segment` head followed by a quoted name and a tail containing `writing` passes the segment-line test. |
| `SegmentPattern.QuotedNameMatches` | ffmpeg_recorder.py:58-60 | `FILE_PTT` captures the first quoted non-empty name after a non-empty quote-free head. |
| `SegmentPattern.ReportsQuotedName` | ffmpeg_recorder.py:57-60 | A `[segment`-prefixed line containing `writing` with a quoted non-empty name reports exactly that name. |
| `SegmentPattern.FilenameKeptWithoutReport` | ffmpeg_recorder.py:57-63 | Lines that report no name, including parse-error lines and non-segment lines, leave `_current_filename` unchanged. |
| `SegmentPattern.FilenameIsLastReport` | ffmpeg_recorder.py:51-63 | After a run of lines, `_current_filename` is the name reported by the last reporting line. |
| `SegmentPattern.BeforeStop` | ffmpeg_recorder.py:51-66 | The consumer takes the queued lines in order, up to the first `None` sentinel. |
| `SegmentPattern.StopIgnoresRest` | ffmpeg_recorder.py:64-66 | Nothing after the first sentinel is looked at. |
| `FFmpegCommand.OnlyRtspAccepted` | ffmpeg_recorder.py:26-30 | Construction fails iff the protocol is not `rtsp`, with "Invalid source protocol: <p>". |
| `FFmpegCommand.CommandShape` | ffmpeg_recorder.py:26-42 | The command is `ffmpeg -rtsp_transport tcp -i <src> -c:v copy`, then `-c:a copy` iff audio is on, then the twelve segment-muxer arguments with the decimal segment time tenth from the end, then the output pattern. It has 20 elements without audio and 22 with. |
| `FFmpegCommand.SegmentTimeReadsBack` | ffmpeg_recorder.py:41 | The segment-time argument is the decimal rendering of the number, and it reads back as the same number. |
| `FFmpegCommand.JoinTwoRelative` | ffmpeg_recorder.py:40 | Joining two relative components puts exactly one `/` between them, under the given path. |
| `FFmpegCommand.OutputPatternUnderOutPath` | ffmpeg_recorder.py:40 | The output pattern starts with `out_path` and ends in a `%Y%m%d` directory holding `%Y%m%d-%H%M%S.mp4`. |
| `Text.DecimalRoundTrip` | ffmpeg_recorder.py:41 | Reading the decimal rendering of `n` gives back `n`. |
| `Text.StrLessTotal` | main.py:99 | Strings are totally ordered, so `p >= boundary` is the negation of `p < boundary`. |
| `Text.StrLeTransitive` | main.py:92 | The sorted order is transitive. |
| `Recorder.ExitIndex` | ffmpeg_recorder.py:121-126 | The kill loop is left at the first observation where the thread is dead or a positive timeout is exceeded. |
| `Recorder.FFmpegRecorder.constructor` | ffmpeg_recorder.py:10-47 | A new recorder is idle: not running, no thread, no process, empty queue, no current file. |
| `Recorder.FFmpegRecorder.Create` | ffmpeg_recorder.py:10-44 | Fails iff the protocol is not `rtsp`; otherwise it yields an idle recorder whose command is `BuildCommand`'s. |
| `Recorder.FFmpegRecorder.Start` | ffmpeg_recorder.py:106-110 | Sets `_running`, clears the event and installs a new thread; nothing else changes. |
| `Recorder.FFmpegRecorder.BeginRun` | ffmpeg_recorder.py:72 | The recording thread sets `_recording`. |
| `Recorder.FFmpegRecorder.LaunchProcess` | ffmpeg_recorder.py:80 | `_process` becomes the launched process. |
| `Recorder.FFmpegRecorder.ReadOutput` | ffmpeg_recorder.py:81-92 | The queue grows by exactly the lines `Feed` emits from a fresh buffer over the reads before end of file. |
| `Recorder.FFmpegRecorder.EndRun` | ffmpeg_recorder.py:100-102 | `_recording` is cleared and the `None` sentinel is queued. |
| `Recorder.FFmpegRecorder.HandleLine` | ffmpeg_recorder.py:54-63 | One line: forwarded iff a callback is set, the file name takes its report if it has one, and it is logged as a parse error iff it is a segment line with no quoted name. |
| `Recorder.FFmpegRecorder.ProcessStdout` | ffmpeg_recorder.py:49-68 | Consumes the lines before the sentinel: the file name becomes their fold, each is forwarded iff a callback is set, the parse errors are logged, and the queue keeps only what follows the sentinel. |
| `Recorder.FFmpegRecorder.Stop` | ffmpeg_recorder.py:112-132 | Always clears `_running` and sets the event. With no live process it sends no signal and completes. Otherwise it kills once per alive observation and raises `Timeout` iff the loop is left by the timeout, which needs `timeout > 0`. On completion the file name, thread, process and queue are reset; on `Timeout` they are untouched. |
| `Recorder.FFmpegRecorder.Restart` | ffmpeg_recorder.py:134-136 | `stop` then `start` if `stop` completed; on `Timeout` nothing is started. |
| `Recorder.FFmpegRecorder.CurrentFilename` | ffmpeg_recorder.py:138-139 | Returns `_current_filename`. |
| `Recorder.FFmpegRecorder.IsRunning` | ffmpeg_recorder.py:141-142 | True iff the recording is wanted, a process and a thread exist, and the thread is alive. |
| `Recorder.StartThenStop` | ffmpeg_recorder.py:106-132 | `start()` then `stop(0)` returns `Stopped` (never `Timeout`) and leaves the recorder not running with no current file. |
| `Recorder.StopTwice` | ffmpeg_recorder.py:112-132 | A second `stop` after a completed one sends no signal, does not raise and leaves the state reset. |
| `DayClock.TruncDiv` | main.py:73 | `int(a / b)` truncates toward zero: the bounds for non-negative and negative `a`. |
| `DayClock.TodayBounds` | main.py:72-73 | For `ts >= 0`, `today_ts` is a multiple of 86400 with `today_ts <= ts < today_ts + 86400`. |
| `DayClock.DayStartUnique` | main.py:73 | No other multiple of a day has that property. |
| `DayClock.TomorrowIsNextDay` | main.py:74 | `tomorrow_ts` differs from `today_ts` iff `ts + 180` reaches the next midnight, and then equals `today_ts + 86400`. |
| `DayClock.RemoveAtIsWindowBack` | main.py:93 | `remove_at_ts` is `today_ts` minus the window, when the window lies after the epoch. |
| `Retention.FirstKept` | main.py:98-100 | The scan stops at the first path not below the boundary; every path before it is below. |
| `Retention.RemoveBefore` | main.py:98-102 | The loop removes exactly the listing's prefix up to the stopping point, in ascending order. |
| `Retention.RemovesExactlyOlder` | main.py:91-102 | On a sorted listing, a path is removed iff it is below the boundary. |
| `Retention.RemovesDaysBefore` | main.py:93-102 | With an order-preserving day-to-path map, the directories removed are exactly the days before the boundary day. |
| `Retention.TenDayExample` | main.py:91-102 | `20240101`..`20240110` with boundary `20240105` removes the first four. |
| `Monitor.IsNotifiedMeaning` | main.py:62-66 | `_is_notified(e, t, c)` with `t > 0` holds iff `e > (c + 1) * t`. |
| `Monitor.ProbeSize` | main.py:106-116 | No current file counts as size 0. An unreadable file counts as size 0 and raises a "Filesize" alert. |
| `Monitor.StallStep` | main.py:118-142 | The intended file check requests a restart iff name and size are unchanged, more than the threshold has elapsed, and the threshold is non-zero. |
| `Monitor.StallStepAsWritten` | main.py:118-133 | The file check as shipped never requests a restart. |
| `Monitor.StuckFileExample` | main.py:131 | On a file stuck 31 s with a 30 s threshold, the intended check restarts the recorder; the shipped one only alerts "Monitoring Thread ERROR". |
| `Monitor.ChangeStartsNewWatch` | main.py:119-125 | A new name or size resets the watch: the clock is re-read, the counter is cleared and no restart happens. A "Filename" notice is sent iff the name changed. |
| `Monitor.QuietWithinThreshold` | main.py:126 | An unchanged file within the threshold changes nothing and sends nothing. |
| `Monitor.StallRestarts` | main.py:126-142 | A stall past a positive threshold requests a restart and keeps the watch start. It raises the counter, with one alert, iff more than `counter + 1` thresholds have elapsed. |
| `Monitor.RestartEndsEpisode` | main.py:119-125 | Once a restart has cleared the recorder's file name, the next check starts a new watch; this needs a watched name. |
| `Monitor.NoFileRestartsEveryTick` | main.py:106-142 | With no reported file (name `None`, size 0) a restart leaves the watch as it was, so every later check past the threshold requests a restart again. |
| `Monitor.StalledWatchKept` | main.py:126-133 | During a stall the name, size and start of the watch stay put, and the counter rises by at most one per check. |
| `Monitor.AlertsThrottled` | main.py:126-133 | Over a stall episode checked at non-decreasing times, after `c > 0` alerts more than `c` thresholds have elapsed. |
| `Monitor.ProvisionDirs` | main.py:72-88 | Today's directory is due iff the day differs from the cached one. Tomorrow's is due iff it differs from today and from its cache. Due directories end up existing, only due and missing ones are made, and none is made twice. |
| `Monitor.PruneOld` | main.py:91-102 | Retention runs only when the boundary day differs from the cached one, and then removes the listing's prefix below the boundary path. |
| `Monitor.Tick` | main.py:71-142 | One tick updates the three day caches, makes directories as due, prunes as due, then applies the size probe and the intended file check. |

## Findings

| source | as written | input that shows it | evidently intended | confidence | as-written member | corrected member |
|---|---|---|---|---|---|---|
| main.py:131 | The stall branch calls `_is_notifed`, a name that is not defined. Every stall raises `NameError`; the handler at main.py:143-145 only sends a "Monitoring Thread ERROR" alert, so the recorder is never restarted and no "Stucks" alert is sent. | a file unchanged for 31 s with `restart_threshold` 30 (`StuckFileExample`) | call the helper `_is_notified` defined at main.py:62-66, then restart | high; follows from name resolution, not executed | `Monitor.StallStepAsWritten` | `Monitor.StallStep` |

## Left out

- Threads, `Queue` blocking, `Event.wait`, `join` timeouts and the crash-respawn loop with its 3-second backoff (ffmpeg_recorder.py:70-104) are left out. Their field effects are the methods `BeginRun`, `LaunchProcess`, `ReadOutput` and `EndRun`, which callers sequence by hand.
- `subprocess.Popen`, `terminate`, `kill`, `poll` and the pipe reads are OS process I/O and are left out. A process is a handle number, `poll() == None` is the `processAlive` input, and the bytes read are the `chunks` input.
- LineSplitter.SplitChunks: the reads are the `chunks` input; the loop consumes them up to the first empty one, which is end of file, so anything after it is ignored (`ReadsBeforeEof`).
- Decoding each 100-byte read as UTF-8 (ffmpeg_recorder.py:84) is left out. A multibyte character split across two reads raises there, and that exception is caught at ffmpeg_recorder.py:97. The model works on decoded characters.
- Recorder.FFmpegRecorder.ProcessStdout: handles what is queued when it runs and returns when the queue empties before the sentinel. With `_recording` clear the source's loop (ffmpeg_recorder.py:51) ends there too. With `_recording` set the source would block in `get()` for more lines instead; that wait is not modelled.
- Recorder.FFmpegRecorder.Stop: thread liveness and elapsed time come from a finite observation trace that must reach an exit. With `timeout == 0` and a thread that never ends, the source loops forever; the model does not cover that.
- Logging is left out, except for the parse-error event, which is the `parseErrors` field.
- `datetime.fromtimestamp`/`strftime` and the float `TS_OFFSET` are library calendar and timezone code and are left out. Timestamps are whole seconds already shifted by the offset. The day-to-directory-path mapping is the `dayPath` parameter; lemmas that need it to be order-preserving say so.
- Float rounding is left out. `int(x / 86400)` and `_is_notified`'s division are modelled with exact arithmetic; they agree with floating point for realistic magnitudes.
- `os.mkdir`, `os.path.isdir`, `glob`, `list.sort`, `shutil.rmtree` and `os.path.getsize` are filesystem and library calls. They are modelled as an existing-directory set, a listing passed in already sorted, returned lists of paths made and removed, and a map from readable files to sizes. Failures of `mkdir` and `rmtree`, and the glob listing's link to the directory set, are not modelled.
- The unbounded `restart(5)` retry loop (main.py:134-142) is an intentional liveness loop and is left out. The tick returns `RestartRecorder` followed by the "Restart" notice, which is the loop's exit on success. The loop is also left by any exception other than `Timeout` from `restart(5)`, which the handler at main.py:143-145 turns into a "Monitoring Thread ERROR" alert; the model does not produce that outcome. The recorder's `Restart` is modelled separately and is not wired to the monitor.
- The monitor loop itself, `system_signal`, and argparse, logger and entry-point setup (main.py:147-222) are left out. They are cancellation, signal handling and configuration.
- `SlackBotWrapper` and slack_bot.py, an HTTP client that swallows its own failures, are left out. Notifications appear only as returned `Notify` actions.
- The source's `out_prefix` is stored but unused in the command. The model keeps it as a field, and `BuildCommand` does not take it.
