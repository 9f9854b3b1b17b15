/**
 * convertVideo: runs ffmpeg, follows its progress stamps, stops it when it stalls and turns
 * its exit into a success flag. The process is replaced by a run: the lines ffmpeg writes to
 * standard error, each with the clock reading taken when it is handled, and how the run ends.
 */
module Supervisor {
  import opened Wrappers
  import opened Text
  import opened Settings
  import opened Stamps
  import opened Command

  /** TIMEOUT_MS: five minutes without a new progress value stops the conversion. */
  const TIMEOUT_MS: int := 5 * 60 * 1000

  const STUCK: string := "Conversion timeout: Process appears to be stuck"
  const FORCED: string := "Conversion timeout: Process forced to terminate"
  const CRASHED: string := "Error during video conversion: "

  /** A line of ffmpeg's standard error and the clock (milliseconds) when it is handled. */
  datatype Line = Line(text: string, clock: int)

  /** How waiting for the process ends once its standard error is exhausted. */
  datatype Ending =
    | Exited(code: Int32)       // waitFor(30 s) saw the process exit with this code
    | Hung                      // still running after 30 s
    | ReadFailed(message: string) // reading the stream threw; `message` is getMessage(), "null" when absent

  /** What the operating system does with the process. */
  datatype Run =
    | SpawnFailed(message: string)
    | Spawned(lines: seq<Line>, ending: Ending, obeysTerm: bool) // obeysTerm: destroy() ends it

  /** The process as convertVideo leaves it. */
  datatype Proc = NeverStarted | Running | Finished(code: Int32) | Destroyed | ForceKilled

  /** The listener's callbacks, in order. */
  datatype Notice = OnProgress(percent: int, seconds: int, message: string) | OnError(message: string) | OnComplete

  datatype Outcome = Outcome(ok: bool, notices: seq<Notice>, proc: Proc)

  /** The loop's variables: lastProgressTime, lastProgress, the callbacks so far, and whether it stopped. */
  datatype Watch = Watch(lastTime: int, lastProgress: int, notices: seq<Notice>, stalled: bool)

  /** A callback, made only when there is a listener. */
  function Tell(listening: bool, n: Notice): seq<Notice>
  {
    if listening then [n] else []
  }

  function ProgressMessage(percent: int): string
  {
    "Converting... " + IntToString(percent) + "%"
  }

  /** The finally block: a process still alive is killed forcibly. */
  function Reap(p: Proc): (r: Proc)
    ensures r != Running
    ensures p != Running ==> r == p
  {
    if p == Running then ForceKilled else p
  }

  /**
   * The loop body for one line: at most one progress callback, none without a listener;
   * lastProgressTime moves to the line's clock exactly when the percentage changes, and the
   * line stalls the loop when it comes more than five minutes after that time.
   */
  function Step(w: Watch, line: Line, total: int, listening: bool): (r: Watch)
    ensures w.notices <= r.notices && |r.notices| <= |w.notices| + 1
    ensures !listening ==> r.notices == w.notices && r.lastProgress == w.lastProgress
    ensures r.lastTime == (if r.lastProgress != w.lastProgress then line.clock else w.lastTime)
    ensures r.stalled <==> line.clock - r.lastTime > TIMEOUT_MS
  {
    var w1 :=
      if !(listening && total > 0) then w
      else match ParseStamp(line.text, TIME_PREFIX)
        case None => w
        case Some(seconds) =>
          var progress := Percent(seconds, total);
          var changed := progress != w.lastProgress;
          Watch(if changed then line.clock else w.lastTime, if changed then progress else w.lastProgress,
                w.notices + [OnProgress(progress, seconds, ProgressMessage(progress))], false);
    w1.(stalled := line.clock - w1.lastTime > TIMEOUT_MS)
  }

  /**
   * The loop over all lines, leaving it at the first stall: the callbacks made before are
   * kept, at most one is added per line, and none without a listener.
   */
  function Scan(lines: seq<Line>, w: Watch, total: int, listening: bool): (r: Watch)
    ensures w.notices <= r.notices && |r.notices| <= |w.notices| + |lines|
    ensures !listening ==> r.notices == w.notices
  {
    if lines == [] then w
    else
      var next := Step(w, lines[0], total, listening);
      if next.stalled then next else Scan(lines[1..], next, total, listening)
  }

  /** The state the loop starts in. */
  function Fresh(start: int): Watch
  {
    Watch(start, -1, [], false)
  }

  /**
   * convertVideo, given whether the input exists, the probed duration (None where getVideoInfo
   * returns null), the command buildFFmpegCommand returns (None where it throws), whether a
   * listener is given, the clock when the loop starts and the run.
   */
  function Supervise(inputPath: string, inputExists: bool, probed: Option<Int32>, command: Option<seq<string>>,
                     listening: bool, start: int, run: Run): (r: Outcome)
    ensures !listening ==> r.notices == []
    ensures listening && !inputExists ==> r.notices == [OnError("Input file does not exist: " + inputPath)]
    ensures r.proc != Running
  {
    if !inputExists then
      Outcome(false, Tell(listening, OnError("Input file does not exist: " + inputPath)), NeverStarted)
    else if command.None? then
      Outcome(false, Tell(listening, OnError(CRASHED + "null")), NeverStarted)
    else match run
      case SpawnFailed(message) =>
        Outcome(false, Tell(listening, OnError(CRASHED + message)), NeverStarted)
      case Spawned(lines, ending, obeysTerm) =>
        Settle(Scan(lines, Fresh(start), probed.GetOr(0), listening), ending, obeysTerm, listening)
  }

  /**
   * What follows the read loop: the stall verdict first, then how the process ended. It
   * succeeds exactly without a stall and with exit code 0, adds exactly one callback for a
   * listener (onComplete exactly on success) and leaves no process running.
   */
  function Settle(w: Watch, ending: Ending, obeysTerm: bool, listening: bool): (r: Outcome)
    ensures r.ok <==> !w.stalled && ending == Exited(0)
    ensures w.notices <= r.notices && |r.notices| == |w.notices| + (if listening then 1 else 0)
    ensures listening ==> (r.ok <==> r.notices[|r.notices| - 1] == OnComplete)
    ensures r.proc != Running
  {
    if w.stalled then
      Outcome(false, w.notices + Tell(listening, OnError(STUCK)), Reap(if obeysTerm then Destroyed else Running))
    else match ending
      case Hung => Outcome(false, w.notices + Tell(listening, OnError(FORCED)), ForceKilled)
      case ReadFailed(message) =>
        Outcome(false, w.notices + Tell(listening, OnError(CRASHED + message)), Reap(Running))
      case Exited(code) =>
        if code == 0 then Outcome(true, w.notices + Tell(listening, OnComplete), Finished(0))
        else Outcome(false, w.notices + Tell(listening, OnError("FFmpeg exited with code: " + IntToString(code as int))),
                     Finished(code))
  }

  /**
   * The read loop of convertVideo: every line is checked for a progress stamp and then for a
   * stall; the loop is left at the first stall.
   */
  method FollowProgress(lines: seq<Line>, total: int, listening: bool, start: int) returns (w: Watch)
    ensures w == Scan(lines, Fresh(start), total, listening)
  {
    var lastTime := start;
    var lastProgress := -1;
    var notices: seq<Notice> := [];
    var i := 0;
    while i < |lines|
      invariant 0 <= i <= |lines|
      invariant Scan(lines[i..], Watch(lastTime, lastProgress, notices, false), total, listening)
             == Scan(lines, Fresh(start), total, listening)
    {
      var line := lines[i];
      assert lines[i..][0] == line && lines[i..][1..] == lines[i + 1..];
      if listening && total > 0 {
        var seen := ParseStamp(line.text, TIME_PREFIX);
        if seen.Some? {
          var progress := Percent(seen.value, total);
          if progress != lastProgress {
            lastTime := line.clock;
            lastProgress := progress;
          }
          notices := notices + [OnProgress(progress, seen.value, ProgressMessage(progress))];
        }
      }
      if line.clock - lastTime > TIMEOUT_MS {
        return Watch(lastTime, lastProgress, notices, true);
      }
      i := i + 1;
    }
    return Watch(lastTime, lastProgress, notices, false);
  }

  /** Every progress callback reports a percentage in [0, 100]. */
  predicate PercentsInRange(notices: seq<Notice>)
  {
    forall n :: n in notices && n.OnProgress? ==> 0 <= n.percent <= 100
  }

  /** The read loop only ever reports percentages in [0, 100], and lastProgress stays -1 or in range. */
  lemma {:induction false} ScanPercentsInRange(lines: seq<Line>, w: Watch, total: int, listening: bool)
    requires PercentsInRange(w.notices) && -1 <= w.lastProgress <= 100
    ensures var r := Scan(lines, w, total, listening);
      PercentsInRange(r.notices) && -1 <= r.lastProgress <= 100
    decreases |lines|
  {
    if lines != [] {
      var next := Step(w, lines[0], total, listening);
      assert PercentsInRange(next.notices) && -1 <= next.lastProgress <= 100;
      if !next.stalled {
        ScanPercentsInRange(lines[1..], next, total, listening);
      }
    }
  }

  /** Every progress callback of a conversion reports a percentage in [0, 100]. */
  lemma SupervisePercentsInRange(inputPath: string, inputExists: bool, probed: Option<Int32>,
                                 command: Option<seq<string>>, listening: bool, start: int, run: Run)
    ensures PercentsInRange(Supervise(inputPath, inputExists, probed, command, listening, start, run).notices)
  {
    if inputExists && command.Some? && run.Spawned? {
      ScanPercentsInRange(run.lines, Fresh(start), probed.GetOr(0), listening);
    }
  }

  /**
   * Without a listener, or without a known duration, no stamp is read and lastProgressTime is
   * never moved: the loop stops exactly when some line arrives more than five minutes after
   * it started, however the conversion is progressing.
   */
  lemma {:induction false} UnwatchedRunHasDeadline(lines: seq<Line>, w: Watch, total: int, listening: bool)
    requires !(listening && total > 0) && !w.stalled
    ensures Scan(lines, w, total, listening).stalled <==>
            exists k :: 0 <= k < |lines| && lines[k].clock - w.lastTime > TIMEOUT_MS
    ensures Scan(lines, w, total, listening).lastTime == w.lastTime
    decreases |lines|
  {
    if lines != [] {
      var next := Step(w, lines[0], total, listening);
      assert next.lastTime == w.lastTime && (next.stalled <==> lines[0].clock - w.lastTime > TIMEOUT_MS);
      if !next.stalled {
        UnwatchedRunHasDeadline(lines[1..], next, total, listening);
        if exists k :: 0 <= k < |lines[1..]| && lines[1..][k].clock - next.lastTime > TIMEOUT_MS {
          var k :| 0 <= k < |lines[1..]| && lines[1..][k].clock - next.lastTime > TIMEOUT_MS;
          assert lines[k + 1].clock - w.lastTime > TIMEOUT_MS;
        }
        if exists k :: 0 <= k < |lines| && lines[k].clock - w.lastTime > TIMEOUT_MS {
          var k :| 0 <= k < |lines| && lines[k].clock - w.lastTime > TIMEOUT_MS;
          assert k > 0;
          assert lines[1..][k - 1].clock - next.lastTime > TIMEOUT_MS;
        }
      }
    }
  }

  /** The percentage a line's stamp stands for, when it has one. */
  function LinePercent(line: Line, total: int): Option<int>
    requires total > 0
  {
    match ParseStamp(line.text, TIME_PREFIX)
    case None => None
    case Some(seconds) => Some(Percent(seconds, total))
  }

  /**
   * A run in which every line carries a stamp whose percentage differs from the one before
   * never stalls: each such line moves lastProgressTime to its own clock.
   */
  lemma {:induction false} SteadyRunNeverStalls(lines: seq<Line>, w: Watch, total: int)
    requires total > 0 && !w.stalled
    requires forall k :: 0 <= k < |lines| ==> LinePercent(lines[k], total).Some?
    requires forall k :: 0 < k < |lines| ==> LinePercent(lines[k], total) != LinePercent(lines[k - 1], total)
    requires lines != [] ==> LinePercent(lines[0], total) != Some(w.lastProgress)
    ensures !Scan(lines, w, total, true).stalled
    decreases |lines|
  {
    if lines != [] {
      var next := Step(w, lines[0], total, true);
      assert next.lastTime == lines[0].clock && Some(next.lastProgress) == LinePercent(lines[0], total);
      var rest := lines[1..];
      forall k | 0 < k < |rest|
        ensures LinePercent(rest[k], total) != LinePercent(rest[k - 1], total)
      {
        assert rest[k] == lines[k + 1] && rest[k - 1] == lines[k];
      }
      if rest != [] {
        assert rest[0] == lines[1];
      }
      assert !next.stalled;
      assert Scan(lines, w, total, true) == Scan(rest, next, total, true);
      SteadyRunNeverStalls(rest, next, total);
    }
  }

  /**
   * How a conversion ends: it succeeds exactly when the input exists, the command is built,
   * the process starts, no stall stops it and it exits with code 0; a listener hears of the
   * end last, with onComplete exactly on success; no path leaves the process running, and
   * none starts it unless the input exists and the command is built.
   */
  lemma SuperviseOutcome(inputPath: string, inputExists: bool, probed: Option<Int32>, command: Option<seq<string>>,
                         listening: bool, start: int, run: Run)
    ensures var r := Supervise(inputPath, inputExists, probed, command, listening, start, run);
      && r.proc != Running
      && (r.ok <==> inputExists && command.Some? && run.Spawned? && run.ending == Exited(0)
                    && !Scan(run.lines, Fresh(start), probed.GetOr(0), listening).stalled)
      && (r.ok ==> r.proc == Finished(0))
      && (!inputExists || command.None? || run.SpawnFailed? ==> r.proc == NeverStarted)
      && (listening ==> r.notices != [] && (r.ok <==> r.notices[|r.notices| - 1] == OnComplete))
  {
  }

  /**
   * convertVideo. The existence check, getVideoInfo, the clock and the operating system are
   * its parameters; the command comes from buildFFmpegCommand.
   */
  method ConvertVideo(inputPath: string, outputPath: string, settings: ConversionSettings, listening: bool,
                      inputExists: bool, probed: Option<Int32>, start: int, run: Run) returns (outcome: Outcome)
    ensures outcome == Supervise(inputPath, inputExists, probed, CommandLine(inputPath, outputPath, settings.Value()),
                                 listening, start, run)
  {
    if !inputExists {
      return Outcome(false, Tell(listening, OnError("Input file does not exist: " + inputPath)), NeverStarted);
    }
    var total: int := if probed.Some? then probed.value else 0;
    var command := BuildCommand(inputPath, outputPath, settings);
    if command.None? {
      return Outcome(false, Tell(listening, OnError(CRASHED + "null")), NeverStarted);
    }
    if run.SpawnFailed? {
      return Outcome(false, Tell(listening, OnError(CRASHED + run.message)), NeverStarted);
    }
    var w := FollowProgress(run.lines, total, listening, start);
    outcome := FinishRun(w, run.ending, run.obeysTerm, listening);
  }

  /** The stall check after the loop, waitFor with its time limit, and the exit code. */
  method FinishRun(w: Watch, ending: Ending, obeysTerm: bool, listening: bool) returns (outcome: Outcome)
    ensures outcome == Settle(w, ending, obeysTerm, listening)
  {
    var proc := Running;
    var notices := w.notices;
    if w.stalled {
      if obeysTerm {
        proc := Destroyed;
      }
      notices := notices + Tell(listening, OnError(STUCK));
      return Outcome(false, notices, Reap(proc));
    }
    match ending
    case Hung =>
      proc := ForceKilled;
      notices := notices + Tell(listening, OnError(FORCED));
      return Outcome(false, notices, proc);
    case ReadFailed(message) =>
      notices := notices + Tell(listening, OnError(CRASHED + message));
      return Outcome(false, notices, Reap(proc));
    case Exited(code) =>
      proc := Finished(code);
      if code == 0 {
        notices := notices + Tell(listening, OnComplete);
        return Outcome(true, notices, proc);
      }
      notices := notices + Tell(listening, OnError("FFmpeg exited with code: " + IntToString(code as int)));
      return Outcome(false, notices, proc);
  }
}
