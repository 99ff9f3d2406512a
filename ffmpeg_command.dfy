/** The ffmpeg argument vector built in `FFmpegRecorder.__init__`
    (ffmpeg_recorder.py). */
module FFmpegCommand {
  import opened Wrappers
  import opened Text

  /** `os.path.join(out_path, "%Y%m%d", "%Y%m%d-%H%M%S.mp4")`: the strftime
      pattern ffmpeg expands into `<out_path>/<YYYYMMDD>/<YYYYMMDD-HHMMSS>.mp4`. */
  function OutputPattern(outPath: string): string {
    JoinPath(JoinPath(outPath, "%Y%m%d"), "%Y%m%d-%H%M%S.mp4")
  }

  /** The command line, or the construction error for a protocol other than
      `rtsp`. The output prefix is not an argument: the source never uses it. */
  function BuildCommand(protocol: string, videoSrc: string, audioEnabled: bool,
                        segmentTime: int, outPath: string): Result<seq<string>, string>
  {
    if protocol != "rtsp" then Err("Invalid source protocol: " + protocol)
    else
      var input := ["ffmpeg", "-rtsp_transport", "tcp", "-i", videoSrc];
      var codecs := if audioEnabled then ["-c:v", "copy", "-c:a", "copy"] else ["-c:v", "copy"];
      var output := ["-f", "segment", "-segment_time", IntToDecimal(segmentTime),
                     "-segment_format", "mp4", "-reset_timestamps", "1",
                     "-segment_atclocktime", "1", "-strftime", "1", OutputPattern(outPath)];
      Ok(input + codecs + output)
  }

  /** Construction fails exactly for a protocol other than `rtsp`, naming it. */
  lemma OnlyRtspAccepted(protocol: string, videoSrc: string, audioEnabled: bool,
                         segmentTime: int, outPath: string)
    ensures BuildCommand(protocol, videoSrc, audioEnabled, segmentTime, outPath).Err? <==> protocol != "rtsp"
    ensures protocol != "rtsp" ==>
      BuildCommand(protocol, videoSrc, audioEnabled, segmentTime, outPath).error == "Invalid source protocol: " + protocol
  {
  }

  /** The shape of the accepted command: input over TCP, stream copy of video
      and, iff audio is enabled, of audio, then the segment muxer with the
      segment time in decimal and the dated output pattern last. */
  lemma CommandShape(videoSrc: string, audioEnabled: bool, segmentTime: int, outPath: string)
    ensures var r := BuildCommand("rtsp", videoSrc, audioEnabled, segmentTime, outPath);
      && r.Ok?
      && |r.value| == (if audioEnabled then 22 else 20)
      && r.value[..7] == ["ffmpeg", "-rtsp_transport", "tcp", "-i", videoSrc, "-c:v", "copy"]
      && (audioEnabled <==> r.value[7] == "-c:a")
      && (audioEnabled ==> r.value[8] == "copy")
      && r.value[|r.value| - 13..|r.value| - 1] ==
           ["-f", "segment", "-segment_time", IntToDecimal(segmentTime),
            "-segment_format", "mp4", "-reset_timestamps", "1",
            "-segment_atclocktime", "1", "-strftime", "1"]
      && r.value[|r.value| - 10] == IntToDecimal(segmentTime)
      && r.value[|r.value| - 1] == OutputPattern(outPath)
  {
    var input := ["ffmpeg", "-rtsp_transport", "tcp", "-i", videoSrc];
    var codecs := if audioEnabled then ["-c:v", "copy", "-c:a", "copy"] else ["-c:v", "copy"];
    var output := ["-f", "segment", "-segment_time", IntToDecimal(segmentTime),
                   "-segment_format", "mp4", "-reset_timestamps", "1",
                   "-segment_atclocktime", "1", "-strftime", "1", OutputPattern(outPath)];
    var v := input + codecs + output;
    assert BuildCommand("rtsp", videoSrc, audioEnabled, segmentTime, outPath) == Ok(v);
    assert |v| == |input| + |codecs| + 13;
    assert v[..7] == input + codecs[..2];
    assert v[|v| - 13..|v| - 1] == output[..12];
    assert v[|v| - 10] == output[3];
  }

  /** The segment time is rendered so that reading it back gives the number. */
  lemma SegmentTimeReadsBack(segmentTime: nat, videoSrc: string, audioEnabled: bool, outPath: string)
    ensures var r := BuildCommand("rtsp", videoSrc, audioEnabled, segmentTime, outPath);
      && r.Ok? && |r.value| >= 10
      && r.value[|r.value| - 10] == NatToDecimal(segmentTime)
      && DecimalValue(NatToDecimal(segmentTime)) == segmentTime
  {
    CommandShape(videoSrc, audioEnabled, segmentTime, outPath);
    assert IntToDecimal(segmentTime) == NatToDecimal(segmentTime);
    DecimalRoundTrip(segmentTime);
  }

  /** Joining a relative component that does not end in '/' and then another
      relative component puts exactly one '/' between them. */
  lemma JoinTwoRelative(path: string, dir: string, file: string)
    requires |dir| >= 1 && dir[0] != '/' && dir[|dir| - 1] != '/'
    requires |file| >= 1 && file[0] != '/'
    ensures StartsWith(JoinPath(JoinPath(path, dir), file), path)
    ensures JoinPath(JoinPath(path, dir), file) == JoinPath(path, dir) + "/" + file
    ensures |JoinPath(path, dir)| >= |dir| && JoinPath(path, dir)[|JoinPath(path, dir)| - |dir|..] == dir
  {
    assert dir[..1] != "/" && file[..1] != "/";
    var d := JoinPath(path, dir);
    assert d[|d| - 1] == dir[|dir| - 1];
  }

  /** Files land in a date directory directly under `out_path`: the pattern
      is `out_path`, then a component ending in `%Y%m%d`, then the file name. */
  lemma OutputPatternUnderOutPath(outPath: string)
    ensures StartsWith(OutputPattern(outPath), outPath)
    ensures var d := JoinPath(outPath, "%Y%m%d");
      OutputPattern(outPath) == d + "/%Y%m%d-%H%M%S.mp4" && |d| >= 6 && d[|d| - 6..] == "%Y%m%d"
  {
    var dir, file := "%Y%m%d", "%Y%m%d-%H%M%S.mp4";
    assert |dir| == 6 && dir[0] == '%' && dir[5] == 'd';
    assert |file| == 17 && file[0] == '%';
    JoinTwoRelative(outPath, dir, file);
    var d := JoinPath(outPath, dir);
    assert d[|d| - 6..] == dir;
  }
}
