/** One tick of the health monitor (main.py, `monitor`): provision today's and
    tomorrow's date directories, prune aged ones, and compare the recorder's
    current file name and size with the last ones seen, restarting the
    recorder when they have stood still for longer than the threshold.
    The clock, the filesystem and the recorder are inputs; `mkdir`, `rmtree`,
    the notifications and the restart request are outputs. */
module Monitor {
  import opened Wrappers
  import opened DayClock
  import opened Retention

  /** A notification sent through the chat wrapper. */
  datatype Notice = Info(title: string) | Alert(title: string)

  /** What the monitor asks of the outside world besides the filesystem. */
  datatype Action = Notify(notice: Notice) | RestartRecorder

  const FilenameTitle: string := "IP Cam - Filename"
  const FilesizeTitle: string := "IP Cam - Filesize"
  const StuckTitle: string := "IP Cam - FFmpeg Recording Process Stucks"
  const RestartTitle: string := "IP Cam - Restart"
  const TickErrorTitle: string := "IP Cam - Monitoring Thread ERROR"

  /** The locals `filename`, `file_ts`, `file_size` and `error_counter`. */
  datatype FileWatch = FileWatch(filename: Option<string>, fileTs: int, fileSize: int, errorCounter: int)

  /** All locals the loop carries from one tick to the next; the three day
      caches start as `None`. */
  datatype MonitorState = MonitorState(todayTs: Option<int>, tomorrowTs: Option<int>, removeAtTs: Option<int>,
                                       watch: FileWatch)

  /** What one tick reads: `ts` is the offset-shifted clock used for days,
      `fileNow` the plain clock read for the file check, `listing` the sorted
      entries under the output path, `currentName` the recorder's current file
      and `sizes` the files whose size can be read. */
  datatype TickInput = TickInput(ts: int, fileNow: int, listing: seq<string>, currentName: Option<string>,
                                 sizes: map<string, int>)

  /** The size read and any alert raised while reading it. */
  datatype Probe = Probe(size: int, actions: seq<Action>)

  /** The file check's new locals and what it sends. */
  datatype Checked = Checked(watch: FileWatch, actions: seq<Action>)

  /** `_is_notified(elapsed_secs, threshold, counter)`: whether
      `elapsed_secs / threshold > counter + 1` under true division; a zero
      threshold raises `ZeroDivisionError`. */
  function IsNotified(elapsed: int, threshold: int, counter: int): Result<bool, string> {
    if threshold == 0 then Err("ZeroDivisionError")
    else Ok((elapsed as real) / (threshold as real) > (counter + 1) as real)
  }

  /** For a positive threshold the alert is due exactly when more than
      `counter + 1` whole thresholds have elapsed. */
  lemma IsNotifiedMeaning(elapsed: int, threshold: int, counter: int)
    requires threshold > 0
    ensures IsNotified(elapsed, threshold, counter) == Ok(elapsed > (counter + 1) * threshold)
  {
    var e, t, c := elapsed as real, threshold as real, (counter + 1) as real;
    var q := e / t;
    assert q * t == e;
    if q > c {
      assert q * t > c * t;
    } else {
      assert q * t <= c * t;
    }
    assert (c * t) == ((counter + 1) * threshold) as real;
  }

  /** main.py 106-116: no current file counts as size 0; a file whose size
      cannot be read counts as size 0 and raises a "Filesize" alert. */
  function ProbeSize(name: Option<string>, sizes: map<string, int>): (p: Probe)
    ensures name.None? ==> p == Probe(0, [])
    ensures name.Some? && name.value in sizes ==> p == Probe(sizes[name.value], [])
    ensures name.Some? && name.value !in sizes ==> p == Probe(0, [Notify(Alert(FilesizeTitle))])
  {
    match name
    case None => Probe(0, [])
    case Some(f) => if f in sizes then Probe(sizes[f], []) else Probe(0, [Notify(Alert(FilesizeTitle))])
  }

  /** The file check as intended (main.py 118-142, with the helper of lines
      62-66 called at line 131): a new name or size starts a new watch; an
      unchanged one older than the threshold asks for a restart, with a
      throttled alert; otherwise nothing happens. The restart retry loop ends
      only when a restart succeeds, so a requested restart is followed by the
      "Restart" notice. A zero threshold makes `_is_notified` raise, which the
      tick's handler turns into a "Monitoring Thread ERROR" alert. */
  function StallStep(w: FileWatch, name: Option<string>, size: int, now: int, threshold: int): (r: Checked)
    ensures RestartRecorder in r.actions <==>
      name == w.filename && size == w.fileSize && now - w.fileTs > threshold && threshold != 0
    ensures r.watch.filename == name && r.watch.fileSize == size
  {
    if name != w.filename || size != w.fileSize then
      Checked(FileWatch(name, now, size, 0), if name != w.filename then [Notify(Info(FilenameTitle))] else [])
    else if now - w.fileTs > threshold then
      match IsNotified(now - w.fileTs, threshold, w.errorCounter)
      case Err(_) => Checked(w, [Notify(Alert(TickErrorTitle))])
      case Ok(notify) =>
        if notify then
          Checked(w.(errorCounter := w.errorCounter + 1),
                  [Notify(Alert(StuckTitle)), RestartRecorder, Notify(Info(RestartTitle))])
        else
          Checked(w, [RestartRecorder, Notify(Info(RestartTitle))])
    else
      Checked(w, [])
  }

  /** The file check as shipped: line 131 calls `_is_notifed`, a name that does
      not exist, so a stall raises `NameError`; the tick's handler (lines
      143-145) sends a "Monitoring Thread ERROR" alert, and neither the counter
      nor the recorder is touched. */
  function StallStepAsWritten(w: FileWatch, name: Option<string>, size: int, now: int, threshold: int): (r: Checked)
    ensures RestartRecorder !in r.actions
    ensures r.watch.filename == name && r.watch.fileSize == size
    ensures r.watch.errorCounter == 0 || r.watch.errorCounter == w.errorCounter
  {
    if name != w.filename || size != w.fileSize then
      Checked(FileWatch(name, now, size, 0), if name != w.filename then [Notify(Info(FilenameTitle))] else [])
    else if now - w.fileTs > threshold then
      Checked(w, [Notify(Alert(TickErrorTitle))])
    else
      Checked(w, [])
  }

  /** A file stuck for 31 seconds with a 30-second threshold: the intended
      check restarts the recorder, the shipped one only reports an error. */
  lemma StuckFileExample()
    ensures var w := FileWatch(Some("a.mp4"), 100, 4096, 0);
      && RestartRecorder in StallStep(w, Some("a.mp4"), 4096, 131, 30).actions
      && RestartRecorder !in StallStepAsWritten(w, Some("a.mp4"), 4096, 131, 30).actions
      && StallStepAsWritten(w, Some("a.mp4"), 4096, 131, 30).actions == [Notify(Alert(TickErrorTitle))]
  {
    IsNotifiedMeaning(31, 30, 0);
  }

  /** A new name or size starts a new watch: the clock is re-read, the counter
      cleared, no restart, and an "Filename" notice iff the name changed. */
  lemma ChangeStartsNewWatch(w: FileWatch, name: Option<string>, size: int, now: int, threshold: int)
    requires name != w.filename || size != w.fileSize
    ensures StallStep(w, name, size, now, threshold).watch == FileWatch(name, now, size, 0)
    ensures RestartRecorder !in StallStep(w, name, size, now, threshold).actions
    ensures Notify(Info(FilenameTitle)) in StallStep(w, name, size, now, threshold).actions <==> name != w.filename
  {
  }

  /** An unchanged file within the threshold changes nothing. */
  lemma QuietWithinThreshold(w: FileWatch, now: int, threshold: int)
    requires now - w.fileTs <= threshold
    ensures StallStep(w, w.filename, w.fileSize, now, threshold) == Checked(w, [])
  {
  }

  /** An unchanged file older than a positive threshold: a restart is
      requested, the watch start is kept, and the counter goes up, with one
      "Stucks" alert, exactly when more than `counter + 1` thresholds have
      elapsed. */
  lemma StallRestarts(w: FileWatch, now: int, threshold: int)
    requires threshold > 0 && now - w.fileTs > threshold
    ensures var c := StallStep(w, w.filename, w.fileSize, now, threshold);
      && RestartRecorder in c.actions
      && c.watch.filename == w.filename && c.watch.fileSize == w.fileSize && c.watch.fileTs == w.fileTs
      && (now - w.fileTs > (w.errorCounter + 1) * threshold ==>
            c.watch.errorCounter == w.errorCounter + 1 && c.actions[0] == Notify(Alert(StuckTitle)))
      && (now - w.fileTs <= (w.errorCounter + 1) * threshold ==>
            c.watch.errorCounter == w.errorCounter && Notify(Alert(StuckTitle)) !in c.actions)
  {
    IsNotifiedMeaning(now - w.fileTs, threshold, w.errorCounter);
  }

  /** `stop` clears the recorder's file name, so after a restart of a recorder
      that had a file the next check sees a new name and the episode ends.
      The watched name must be present: with no reported file the name stays
      `None` across the restart, the watch is kept, and the next check past
      the threshold restarts again (`NoFileRestartsEveryTick`). */
  lemma RestartEndsEpisode(w: FileWatch, size: int, now: int, threshold: int)
    requires w.filename.Some?
    ensures StallStep(w, None, size, now, threshold).watch == FileWatch(None, now, size, 0)
    ensures RestartRecorder !in StallStep(w, None, size, now, threshold).actions
  {
  }

  /** A watch with no reported file is never reset by a restart: while no file
      is reported and the size stays put, every later check past the threshold
      asks for a restart again, from the same start time. */
  lemma NoFileRestartsEveryTick(w: FileWatch, size: int, now: int, later: int, threshold: int)
    requires w.filename.None? && w.fileSize == size && threshold != 0
    requires now - w.fileTs > threshold && later >= now
    ensures var r := StallStep(w, None, size, now, threshold);
      && RestartRecorder in r.actions
      && r.watch.fileTs == w.fileTs
      && RestartRecorder in StallStep(r.watch, None, size, later, threshold).actions
  {
  }

  /** Successive checks that keep seeing the watched name and size. */
  function RunStalled(w: FileWatch, nows: seq<int>, threshold: int): FileWatch
    decreases |nows|
  {
    if nows == [] then w
    else StallStep(RunStalled(w, nows[..|nows| - 1], threshold), w.filename, w.fileSize, nows[|nows| - 1], threshold).watch
  }

  /** Throughout a stall the name, size and start of the watch stay put and the
      counter never goes down. */
  lemma {:induction false} StalledWatchKept(w: FileWatch, nows: seq<int>, threshold: int)
    ensures var r := RunStalled(w, nows, threshold);
      r.filename == w.filename && r.fileSize == w.fileSize && r.fileTs == w.fileTs &&
      w.errorCounter <= r.errorCounter <= w.errorCounter + |nows|
    decreases |nows|
  {
    if nows != [] {
      StalledWatchKept(w, nows[..|nows| - 1], threshold);
    }
  }

  /** Alert throttling: over a stall episode that starts with a cleared
      counter and is checked at non-decreasing times, each "Stucks" alert
      raises the counter by one, and after `c` alerts more than `c` thresholds
      have elapsed: at most one more alert per further threshold. */
  lemma {:induction false} AlertsThrottled(w: FileWatch, nows: seq<int>, threshold: int)
    requires threshold > 0 && w.errorCounter == 0
    requires forall i, j :: 0 <= i < j < |nows| ==> nows[i] <= nows[j]
    ensures var c := RunStalled(w, nows, threshold).errorCounter;
      0 <= c <= |nows| && (c > 0 ==> c * threshold < nows[|nows| - 1] - w.fileTs)
    decreases |nows|
  {
    if nows != [] {
      var init := nows[..|nows| - 1];
      var now := nows[|nows| - 1];
      AlertsThrottled(w, init, threshold);
      StalledWatchKept(w, init, threshold);
      var prev := RunStalled(w, init, threshold);
      if now - w.fileTs > threshold {
        StallRestarts(prev, now, threshold);
      }
      if prev.errorCounter > 0 {
        assert nows[|init| - 1] <= now;
      }
    }
  }

  /** The directory rule of main.py 75-88: today's directory is due when the
      day differs from the cached one, tomorrow's when it differs from today
      and from its cached value; a due directory is made unless it exists;
      nothing else is made. */
  ghost predicate ProvisionedAsDue(s: MonitorState, ts: int, dirs: set<string>, dayPath: int -> string,
                                   dirs': set<string>, made: seq<string>)
  {
    var today, tomorrow := DayStart(ts), TomorrowTs(ts);
    var todayDue := s.todayTs != Some(today);
    var tomorrowDue := tomorrow != today && s.tomorrowTs != Some(tomorrow);
    && dirs' == dirs + (set p | p in made)
    && (todayDue ==> dayPath(today) in dirs')
    && (tomorrowDue ==> dayPath(tomorrow) in dirs')
    && (forall i :: 0 <= i < |made| ==> made[i] !in dirs)
    && (forall i, j :: 0 <= i < j < |made| ==> made[i] != made[j])
    && (forall p :: p in made ==> (todayDue && p == dayPath(today)) || (tomorrowDue && p == dayPath(tomorrow)))
  }

  /** main.py 72-88: update the day caches and make the due directories,
      returning the paths passed to `mkdir` in order. */
  method ProvisionDirs(s: MonitorState, ts: int, dirs: set<string>, dayPath: int -> string)
    returns (s': MonitorState, dirs': set<string>, made: seq<string>)
    ensures s' == s.(todayTs := Some(DayStart(ts)),
                     tomorrowTs := if TomorrowTs(ts) != DayStart(ts) then Some(TomorrowTs(ts)) else s.tomorrowTs)
    ensures ProvisionedAsDue(s, ts, dirs, dayPath, dirs', made)
  {
    var today := DayStart(ts);
    var tomorrow := DayStart(ts + ProvisionLead);
    s', dirs', made := s, dirs, [];
    if Some(today) != s'.todayTs {
      s' := s'.(todayTs := Some(today));
      var path := dayPath(today);
      if path !in dirs' {
        made := made + [path];
        dirs' := dirs' + {path};
      }
    }
    if tomorrow != today && Some(tomorrow) != s'.tomorrowTs {
      s' := s'.(tomorrowTs := Some(tomorrow));
      var path := dayPath(tomorrow);
      if path !in dirs' {
        made := made + [path];
        dirs' := dirs' + {path};
      }
    }
  }

  /** main.py 91-102: when the boundary day has moved, remove the listing's
      leading paths below the boundary day's path; returns the paths passed
      to `rmtree` in order. */
  method PruneOld(s: MonitorState, ts: int, savingPeriod: int, listing: seq<string>, dayPath: int -> string)
    returns (s': MonitorState, removed: seq<string>)
    ensures s' == s.(removeAtTs := Some(RemoveAtTs(ts, savingPeriod)))
    ensures s.removeAtTs == Some(RemoveAtTs(ts, savingPeriod)) ==> removed == []
    ensures s.removeAtTs != Some(RemoveAtTs(ts, savingPeriod)) ==>
      removed == listing[..FirstKept(listing, dayPath(RemoveAtTs(ts, savingPeriod)))]
  {
    var removeAt := DayStart(ts - savingPeriod * SecondsPerDay);
    s', removed := s, [];
    if Some(removeAt) != s.removeAtTs {
      s' := s.(removeAtTs := Some(removeAt));
      removed := RemoveBefore(listing, dayPath(removeAt));
    }
  }

  /** One tick, in the source's order: directories, retention, then the file
      check. Returns the new locals, the directories made and removed, and the
      notifications and restart requests. */
  method Tick(s: MonitorState, input: TickInput, savingPeriod: int, threshold: int,
              dirs: set<string>, dayPath: int -> string)
    returns (s': MonitorState, made: seq<string>, removed: seq<string>, actions: seq<Action>)
    ensures s'.todayTs == Some(DayStart(input.ts))
    ensures s'.tomorrowTs == if TomorrowTs(input.ts) != DayStart(input.ts) then Some(TomorrowTs(input.ts)) else s.tomorrowTs
    ensures s'.removeAtTs == Some(RemoveAtTs(input.ts, savingPeriod))
    ensures exists dirs' :: ProvisionedAsDue(s, input.ts, dirs, dayPath, dirs', made)
    ensures removed == if s.removeAtTs == Some(RemoveAtTs(input.ts, savingPeriod)) then []
                       else input.listing[..FirstKept(input.listing, dayPath(RemoveAtTs(input.ts, savingPeriod)))]
    ensures var probe := ProbeSize(input.currentName, input.sizes);
      var checked := StallStep(s.watch, input.currentName, probe.size, input.fileNow, threshold);
      s'.watch == checked.watch && actions == probe.actions + checked.actions
  {
    var dirs';
    s', dirs', made := ProvisionDirs(s, input.ts, dirs, dayPath);
    s', removed := PruneOld(s', input.ts, savingPeriod, input.listing, dayPath);
    var probe := ProbeSize(input.currentName, input.sizes);
    var checked := StallStep(s'.watch, input.currentName, probe.size, input.fileNow, threshold);
    s' := s'.(watch := checked.watch);
    actions := probe.actions + checked.actions;
  }
}
