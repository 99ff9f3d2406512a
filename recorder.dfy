/** The field-level state machine of `FFmpegRecorder` (ffmpeg_recorder.py):
    what `start`, `stop`, `restart`, `current_filename`, `is_running`, the
    recording thread's bookkeeping and the stdout consumer do to the object's
    fields. Threads, the OS process and the clock are not modelled: a thread or
    process is a handle number, and what `is_alive`, `poll` and `time.time`
    would answer is passed in. */
module Recorder {
  import opened Wrappers
  import opened LineSplitter
  import opened SegmentPattern
  import opened FFmpegCommand

  /** How `stop` ends: normally, or by raising `Timeout`. */
  datatype StopResult = Stopped | TimedOut

  /** What one evaluation of the guard of `stop`'s kill loop sees: whether the
      recording thread is still alive and, if it is, how many seconds have
      passed since `stop` began. */
  datatype Observation = Observation(alive: bool, elapsed: int)

  /** The kill loop is left at this observation: the thread has ended, or the
      caller's timeout is exceeded. */
  predicate Exits(timeout: int, o: Observation) {
    !o.alive || (timeout > 0 && o.elapsed > timeout)
  }

  /** The observations reach a point where the kill loop is left. With a zero
      timeout and a thread that never ends, `stop` does not return. */
  predicate TraceEnds(timeout: int, obs: seq<Observation>) {
    exists k :: 0 <= k < |obs| && Exits(timeout, obs[k])
  }

  /** The observation at which the kill loop is left. */
  function ExitIndex(timeout: int, obs: seq<Observation>): (k: nat)
    requires TraceEnds(timeout, obs)
    ensures k < |obs| && Exits(timeout, obs[k])
    ensures forall j :: 0 <= j < k ==> !Exits(timeout, obs[j])
  {
    if Exits(timeout, obs[0]) then 0
    else
      assert TraceEnds(timeout, obs[1..]) by {
        var k :| 0 <= k < |obs| && Exits(timeout, obs[k]);
        assert obs[1..][k - 1] == obs[k];
      }
      1 + ExitIndex(timeout, obs[1..])
  }

  /** Lines as they are put on the queue. */
  function QueueItems(lines: seq<string>): (q: seq<Option<string>>)
    ensures |q| == |lines| && forall i :: 0 <= i < |q| ==> q[i] == Some(lines[i])
  {
    seq(|lines|, i requires 0 <= i < |lines| => Some(lines[i]))
  }

  /** The lines the consumer logs as "Can't find file name", in order. */
  function ParseErrors(lines: seq<string>): seq<string>
    decreases |lines|
  {
    if lines == [] then []
    else
      var last := lines[|lines| - 1];
      ParseErrors(lines[..|lines| - 1]) + (if IsParseError(last) then [last] else [])
  }

  /** Handling the lines before the sentinel one at a time: one more line
      is one more step of the file-name fold and of the error log. */
  lemma TakeOneMore(cur: Option<string>, taken: seq<string>, i: int)
    requires 0 <= i < |taken|
    ensures taken[..i + 1] == taken[..i] + [taken[i]]
    ensures FilenameAfter(cur, taken[..i + 1]) == NextFilename(FilenameAfter(cur, taken[..i]), taken[i])
    ensures ParseErrors(taken[..i + 1]) ==
      ParseErrors(taken[..i]) + (if IsParseError(taken[i]) then [taken[i]] else [])
  {
    assert taken[..i + 1][..i] == taken[..i];
  }

  /** The handling loop stops exactly after the lines before the sentinel. */
  lemma TakenAll(queue: seq<Option<string>>, i: int)
    requires 0 <= i <= |BeforeStop(queue)|
    requires !(i < |queue| && queue[i].Some?)
    ensures i == |BeforeStop(queue)| && BeforeStop(queue)[..i] == BeforeStop(queue)
    ensures i < |queue| <==> |BeforeStop(queue)| < |queue|
  {
  }

  class FFmpegRecorder {
    const cmd: seq<string>
    const videoSrc: string
    const segmentTime: int
    const outPath: string
    const outPrefix: string
    /** Whether a `std_cb` observer was given. */
    const forwardsOutput: bool

    /** `_running`: the recording is meant to go on. */
    var running: bool
    /** `_recording`: the recording thread's loop is active. */
    var recording: bool
    /** `_event` is set (wakes the 3-second respawn wait). */
    var wakeSignalled: bool
    /** `_recording_thread`, as the number of the thread started. */
    var recordingThread: Option<nat>
    /** `_process`, as a process handle number. */
    var process: Option<nat>
    /** `_lines`: the queue between the output reader and the consumer;
        `None` is the end-of-output sentinel. */
    var lines: seq<Option<string>>
    /** `_current_filename` */
    var currentFilename: Option<string>
    /** Threads started so far; each `start` creates a new one. */
    var threadsStarted: nat
    /** Lines handed to `std_cb`. */
    var forwarded: seq<string>
    /** Lines logged as "Can't find file name". */
    var parseErrors: seq<string>

    /** The state right after `__init__`. */
    ghost predicate Idle()
      reads this
    {
      !running && !recording && !wakeSignalled && recordingThread.None? && process.None? &&
      lines == [] && currentFilename.None? && threadsStarted == 0 && forwarded == [] && parseErrors == []
    }

    constructor (cmd: seq<string>, videoSrc: string, segmentTime: int, outPath: string,
                 outPrefix: string, forwardsOutput: bool)
      ensures this.cmd == cmd && this.videoSrc == videoSrc && this.segmentTime == segmentTime
      ensures this.outPath == outPath && this.outPrefix == outPrefix && this.forwardsOutput == forwardsOutput
      ensures Idle()
    {
      this.cmd, this.videoSrc, this.segmentTime := cmd, videoSrc, segmentTime;
      this.outPath, this.outPrefix, this.forwardsOutput := outPath, outPrefix, forwardsOutput;
      running, recording, wakeSignalled := false, false, false;
      recordingThread, process := None, None;
      lines, currentFilename := [], None;
      threadsStarted, forwarded, parseErrors := 0, [], [];
    }

    /** `FFmpegRecorder(...)`: builds the command, raising for a protocol other
        than `rtsp`. */
    static method Create(protocol: string, videoSrc: string, audioEnabled: bool, segmentTime: int,
                         outPath: string, outPrefix: string, forwardsOutput: bool)
      returns (r: Result<FFmpegRecorder, string>)
      ensures r.Err? <==> protocol != "rtsp"
      ensures r.Err? ==> r.error == "Invalid source protocol: " + protocol
      ensures r.Ok? ==> fresh(r.value) && r.value.Idle()
      ensures r.Ok? ==> r.value.cmd == BuildCommand(protocol, videoSrc, audioEnabled, segmentTime, outPath).value
      ensures r.Ok? ==> r.value.outPrefix == outPrefix && r.value.forwardsOutput == forwardsOutput
    {
      var built := BuildCommand(protocol, videoSrc, audioEnabled, segmentTime, outPath);
      if built.Err? {
        return Err(built.error);
      }
      var rec := new FFmpegRecorder(built.value, videoSrc, segmentTime, outPath, outPrefix, forwardsOutput);
      return Ok(rec);
    }

    /** `start`: mark the recording as wanted, clear the wake-up event and start
        a new recording thread. */
    method Start()
      modifies this`running, this`wakeSignalled, this`recordingThread, this`threadsStarted
      ensures running && !wakeSignalled
      ensures recordingThread == Some(old(threadsStarted)) && threadsStarted == old(threadsStarted) + 1
    {
      running := true;
      wakeSignalled := false;
      recordingThread := Some(threadsStarted);
      threadsStarted := threadsStarted + 1;
    }

    /** The recording thread begins (`_run`, first lines). */
    method BeginRun()
      modifies this`recording
      ensures recording
    {
      recording := true;
    }

    /** The recording thread launches ffmpeg (`_run`, `Popen`). */
    method LaunchProcess(pid: nat)
      modifies this`process
      ensures process == Some(pid)
    {
      process := Some(pid);
    }

    /** The recording thread reads one process's output, chunk by chunk up to
        the first empty read, with a fresh line buffer, and queues every
        completed line. Text after the last newline is dropped when the output
        ends. */
    method ReadOutput(chunks: seq<string>)
      modifies this`lines
      ensures lines == old(lines) + QueueItems(Feed(Splitter([], ""), Concat(ReadsBeforeEof(chunks))).lines)
    {
      var emitted, _ := SplitChunks("", chunks);
      lines := lines + QueueItems(emitted);
    }

    /** The recording thread ends (`_run`, `finally`): it clears `_recording`
        and queues the sentinel. */
    method EndRun()
      modifies this`recording, this`lines
      ensures !recording && lines == old(lines) + [None]
    {
      recording := false;
      lines := lines + [None];
    }

    /** The body of `_process_stdout`'s loop for one line: hand it to `std_cb`
        if there is one; a `[segment ... writing` line sets the current file
        name, or is logged as a parse error when no quoted name can be
        extracted. */
    method HandleLine(line: string)
      modifies this`currentFilename, this`forwarded, this`parseErrors
      ensures currentFilename == NextFilename(old(currentFilename), line)
      ensures forwarded == old(forwarded) + (if forwardsOutput then [line] else [])
      ensures parseErrors == old(parseErrors) + (if IsParseError(line) then [line] else [])
    {
      if forwardsOutput {
        forwarded := forwarded + [line];
      }
      if IsSegmentWriting(line) {
        var m := MatchFile(line);
        if m.Some? {
          currentFilename := m;
        } else {
          parseErrors := parseErrors + [line];
        }
      }
    }

    /** `_process_stdout` over what is queued now: take lines until the `None`
        sentinel, hand each to `std_cb` if there is one, and let each
        `[segment ... writing` line set the current file name, or log a parse
        error when no quoted name can be extracted. Returns whether the
        sentinel was reached. */
    method ProcessStdout() returns (sawStop: bool)
      modifies this`lines, this`currentFilename, this`forwarded, this`parseErrors
      ensures var taken := BeforeStop(old(lines));
        && (sawStop <==> |taken| < |old(lines)|)
        && lines == (if sawStop then old(lines)[|taken| + 1..] else [])
        && currentFilename == FilenameAfter(old(currentFilename), taken)
        && forwarded == old(forwarded) + (if forwardsOutput then taken else [])
        && parseErrors == old(parseErrors) + ParseErrors(taken)
    {
      var queue := lines;
      ghost var taken := BeforeStop(queue);
      var i := 0;
      while i < |queue| && queue[i].Some?
        invariant 0 <= i <= |taken|
        invariant currentFilename == FilenameAfter(old(currentFilename), taken[..i])
        invariant forwarded == old(forwarded) + (if forwardsOutput then taken[..i] else [])
        invariant parseErrors == old(parseErrors) + ParseErrors(taken[..i])
        modifies this`currentFilename, this`forwarded, this`parseErrors
      {
        var line := queue[i].value;
        TakeOneMore(old(currentFilename), taken, i);
        HandleLine(line);
        i := i + 1;
      }
      TakenAll(queue, i);
      sawStop := i < |queue|;
      lines := if sawStop then queue[i + 1..] else [];
    }

    /** `stop(timeout)`: always clears `_running` and sets the event. With a
        live process it terminates it, then, while the thread is alive, either
        raises `Timeout` (positive timeout exceeded) or kills again; `kills`
        counts the kill signals sent. On normal completion the process, thread,
        file name and queue are reset; on `Timeout` they are left as they
        were. */
    method Stop(timeout: int, processAlive: bool, obs: seq<Observation>) returns (r: StopResult, kills: nat)
      requires process.Some? && processAlive ==> TraceEnds(timeout, obs)
      modifies this`running, this`wakeSignalled, this`currentFilename, this`recordingThread, this`process, this`lines
      ensures !running && wakeSignalled
      ensures !(old(process).Some? && processAlive) ==> r == Stopped && kills == 0
      ensures old(process).Some? && processAlive ==>
        kills == ExitIndex(timeout, obs) && (r == TimedOut <==> obs[kills].alive)
      ensures r == TimedOut ==> timeout > 0
      ensures r == Stopped ==> currentFilename.None? && recordingThread.None? && process.None? && lines == []
      ensures r == TimedOut ==>
        currentFilename == old(currentFilename) && recordingThread == old(recordingThread) &&
        process == old(process) && lines == old(lines)
    {
      running := false;
      wakeSignalled := true;
      r, kills := Stopped, 0;
      if process.Some? && processAlive {
        // terminate(), then join(3) before the first liveness check
        while obs[kills].alive
          invariant kills <= ExitIndex(timeout, obs)
          decreases ExitIndex(timeout, obs) - kills
        {
          if timeout > 0 && obs[kills].elapsed > timeout {
            r := TimedOut;
            return;
          }
          // kill(), then join(3)
          kills := kills + 1;
        }
      }
      currentFilename := None;
      recordingThread := None;
      process := None;
      lines := [];
    }

    /** `restart(timeout)`: `stop(timeout)`, then `start()` unless `stop`
        raised. */
    method Restart(timeout: int, processAlive: bool, obs: seq<Observation>) returns (r: StopResult, kills: nat)
      requires process.Some? && processAlive ==> TraceEnds(timeout, obs)
      modifies this`running, this`wakeSignalled, this`currentFilename, this`recordingThread, this`process,
               this`lines, this`threadsStarted
      ensures !(old(process).Some? && processAlive) ==> r == Stopped
      ensures old(process).Some? && processAlive ==>
        kills == ExitIndex(timeout, obs) && (r == TimedOut <==> obs[kills].alive)
      ensures r == Stopped ==>
        running && !wakeSignalled && currentFilename.None? && process.None? && lines == [] &&
        recordingThread == Some(old(threadsStarted)) && threadsStarted == old(threadsStarted) + 1
      ensures r == TimedOut ==>
        !running && wakeSignalled && timeout > 0 && threadsStarted == old(threadsStarted) &&
        currentFilename == old(currentFilename) && recordingThread == old(recordingThread) &&
        process == old(process) && lines == old(lines)
    {
      r, kills := Stop(timeout, processAlive, obs);
      if r == Stopped {
        Start();
      }
    }

    /** `current_filename()` */
    method CurrentFilename() returns (name: Option<string>)
      ensures name == currentFilename
    {
      name := currentFilename;
    }

    /** `is_running()`, given whether the recording thread is alive. */
    method IsRunning(threadAlive: bool) returns (b: bool)
      ensures b <==> running && process.Some? && recordingThread.Some? && threadAlive
    {
      b := running && process.Some? && recordingThread.Some? && threadAlive;
    }
  }

  /** `start()` followed at once by `stop(0)`: a zero timeout never raises, and
      afterwards the recorder is not running and has no current file. */
  method StartThenStop(rec: FFmpegRecorder, processAlive: bool, obs: seq<Observation>, threadAlive: bool)
    returns (r: StopResult, running: bool, name: Option<string>)
    requires rec.process.Some? && processAlive ==> TraceEnds(0, obs)
    modifies rec
    ensures r == Stopped && !running && name.None?
  {
    rec.Start();
    var kills;
    r, kills := rec.Stop(0, processAlive, obs);
    name := rec.CurrentFilename();
    running := rec.IsRunning(threadAlive);
  }

  /** A second `stop` after a completed one sends no signal, does not raise and
      changes nothing. */
  method StopTwice(rec: FFmpegRecorder, timeout: int, processAlive: bool, obs: seq<Observation>,
                   aliveAgain: bool, obsAgain: seq<Observation>)
    returns (first: StopResult, second: StopResult, killsAgain: nat)
    requires rec.process.Some? && processAlive ==> TraceEnds(timeout, obs)
    modifies rec
    ensures first == Stopped ==> second == Stopped && killsAgain == 0
    ensures first == Stopped ==>
      !rec.running && rec.process.None? && rec.recordingThread.None? && rec.currentFilename.None? && rec.lines == []
  {
    var kills;
    first, kills := rec.Stop(timeout, processAlive, obs);
    if first == Stopped {
      var name, thread, queue := rec.currentFilename, rec.recordingThread, rec.lines;
      second, killsAgain := rec.Stop(timeout, aliveAgain, obsAgain);
      assert rec.currentFilename == name && rec.recordingThread == thread && rec.lines == queue;
      assert !rec.running && rec.process.None?;
    } else {
      second, killsAgain := first, 0;
    }
  }
}
