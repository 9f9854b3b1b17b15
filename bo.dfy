/**
 * model/bo/ConversionBO.java: the older business layer's queue and workers. The converter it
 * calls is replaced by what that call reports; each `ProcessOne` is one turn of a worker's
 * loop. The tables are maps by id; the writes issued to the jobs table are kept in order.
 */
module Bo {
  import opened Wrappers
  import opened Text
  import opened Paths
  import opened Bean

  const WORKER_COUNT: nat := 2
  const PROCESSING: string := "PROCESSING"

  /** A row of the videos table (the bean Video). */
  datatype VideoRecord = VideoRecord(videoId: Int32, userId: Int32, filename: Option<string>,
                                     filePath: Option<string>, fileSize: int)

  /** A write to the jobs table: updateJobStatus, failJob or completeJob. */
  datatype BoWrite =
    | StatusSet(jobId: Int32, status: string, progress: int)
    | JobFailed(jobId: Int32, message: Option<string>)
    | JobCompleted(jobId: Int32, outputPath: string)

  predicate IsTerminal(w: BoWrite)
  {
    w.JobFailed? || w.JobCompleted?
  }

  /** One write, at clock reading `now`: an UPDATE of the row with that id; no row, no change. */
  function Apply(jobs: map<Int32, BeanJob>, w: BoWrite, now: int): map<Int32, BeanJob>
  {
    if w.jobId !in jobs then jobs
    else
      var j := jobs[w.jobId];
      match w
      case StatusSet(id, s, p) => jobs[id := j.(status := Some(s), progress := Wrap32(p))]
      case JobFailed(id, m) => jobs[id := j.(status := Some("FAILED"), errorMessage := m, completedAt := Some(now))]
      case JobCompleted(id, path) =>
        jobs[id := j.(status := Some("COMPLETED"), progress := 100, outputPath := Some(path), completedAt := Some(now))]
  }

  /** The writes, oldest first, all at the same clock reading. */
  function ApplyAll(jobs: map<Int32, BeanJob>, ws: seq<BoWrite>, now: int): map<Int32, BeanJob>
  {
    if ws == [] then jobs else Apply(ApplyAll(jobs, ws[..|ws| - 1], now), ws[|ws| - 1], now)
  }

  lemma ApplyAllSnoc(jobs: map<Int32, BeanJob>, ws: seq<BoWrite>, w: BoWrite, now: int)
    ensures ApplyAll(jobs, ws + [w], now) == Apply(ApplyAll(jobs, ws, now), w, now)
  {
    assert (ws + [w])[..|ws|] == ws;
  }

  /** Applying two batches of writes is applying their concatenation. */
  lemma {:induction false} ApplyAllAppend(jobs: map<Int32, BeanJob>, a: seq<BoWrite>, b: seq<BoWrite>, now: int)
    ensures ApplyAll(ApplyAll(jobs, a, now), b, now) == ApplyAll(jobs, a + b, now)
    decreases |b|
  {
    if b == [] {
      assert a + b == a;
    } else {
      var front, last := b[..|b| - 1], b[|b| - 1];
      assert b == front + [last];
      assert a + b == (a + front) + [last];
      ApplyAllAppend(jobs, a, front, now);
      ApplyAllSnoc(jobs, a + front, last, now);
    }
  }

  /** Writes only ever change rows that exist; they never add or remove one. */
  lemma {:induction false} ApplyAllKeepsRows(jobs: map<Int32, BeanJob>, ws: seq<BoWrite>, now: int)
    ensures ApplyAll(jobs, ws, now).Keys == jobs.Keys
    decreases |ws|
  {
    if ws != [] {
      ApplyAllKeepsRows(jobs, ws[..|ws| - 1], now);
    }
  }

  // ---------------------------------------------------------------- output names

  /** getOutputFilename: the name without its extension, "_converted." and the format ("null" for null). */
  function OutputFilename(name: string, format: Option<string>): (r: string)
    ensures StartsWith(r, StripExtension(name))
  {
    StripExtension(name) + "_converted." + format.GetOr("null")
  }

  /** The output name reads back: its extension is the format, its base the original base and "_converted". */
  lemma OutputFilenameReadsBack(name: string, format: string)
    requires '.' !in format
    ensures Probe.Extension(OutputFilename(name, Some(format))) == Some(format)
    ensures StripExtension(OutputFilename(name, Some(format))) == StripExtension(name) + "_converted"
  {
    var stem := StripExtension(name) + "_converted";
    var r := OutputFilename(name, Some(format));
    assert r == stem + "." + format;
    StemThenFormat(stem, format);
  }

  /** The output directory: the input's parent (printed "null" when it has none) and "/converted". */
  function OutputDirectory(filePath: string): (r: string)
    ensures |r| >= |"/converted"|
  {
    Parent(filePath).GetOr("null") + [SEPARATOR] + "converted"
  }

  // ---------------------------------------------------------------- processing one job

  /** What the converter call does: reports progress, then returns its flag or throws. */
  datatype Conversion =
    | Returned(progress: seq<int>, success: bool)
    | Threw(progress: seq<int>, message: Option<string>)

  /**
   * Everything processJob learns from outside apart from the tables: the working directory,
   * whether the output directory exists or can be made, what the converter does, whether
   * the output file exists afterwards, and the clock.
   */
  datatype Env = Env(cwd: string, dirReady: bool, conversion: Conversion, outputExists: bool, now: int)

  /** Before converting: the absolute input and output paths, or the failure to record. */
  datatype Setup = Ready(input: string, output: string) | Refused(message: Option<string>)

  /**
   * The lookups before the converter runs, in the order the code makes them: the video row,
   * its path (a null path throws, with no message), the input file, the output name (a null
   * file name throws) and the output directory.
   */
  function Prepare(job: BeanJob, videos: map<Int32, VideoRecord>, files: set<string>, env: Env): (r: Setup)
    ensures r.Ready? <==>
              job.videoId in videos && videos[job.videoId].filePath.Some? &&
              Absolute(videos[job.videoId].filePath.value, env.cwd) in files &&
              videos[job.videoId].filename.Some? && env.dirReady
    ensures r.Ready? ==> r.input == Absolute(videos[job.videoId].filePath.value, env.cwd)
  {
    if job.videoId !in videos then Refused(Some("Video not found"))
    else
      var video := videos[job.videoId];
      if video.filePath.None? then Refused(None)
      else
        var input := video.filePath.value;
        if Absolute(input, env.cwd) !in files then Refused(Some("Video file not found"))
        else if video.filename.None? then Refused(None)
        else if !env.dirReady then Refused(Some("Failed to create output directory"))
        else
          var name := OutputFilename(video.filename.value, job.outputFormat);
          Ready(Absolute(input, env.cwd), Absolute(Child(OutputDirectory(input), name), env.cwd))
  }

  /** The progress callback's writes: PROCESSING with each reported value. */
  function ProgressWrites(id: Int32, progress: seq<int>): (ws: seq<BoWrite>)
    ensures |ws| == |progress|
    ensures forall i :: 0 <= i < |ws| ==> ws[i] == StatusSet(id, PROCESSING, progress[i])
  {
    if progress == [] then [] else ProgressWrites(id, progress[..|progress| - 1]) + [StatusSet(id, PROCESSING, progress[|progress| - 1])]
  }

  /** The write that ends the job once the converter has run. */
  function Outcome(id: Int32, output: string, c: Conversion, outputExists: bool): BoWrite
  {
    match c
    case Threw(_, message) => JobFailed(id, message)
    case Returned(_, success) =>
      if success && outputExists then JobCompleted(id, output) else JobFailed(id, Some("Conversion failed"))
  }

  /** The writes after PROCESSING at 0%: the failure the lookups found, or the conversion's. */
  function AfterSetup(id: Int32, setup: Setup, env: Env): seq<BoWrite>
  {
    match setup
    case Refused(message) => [JobFailed(id, message)]
    case Ready(_, output) =>
      ProgressWrites(id, env.conversion.progress) + [Outcome(id, output, env.conversion, env.outputExists)]
  }

  /**
   * processJob: the writes it issues, in order. PROCESSING at 0% comes first, and there is
   * one write per progress callback besides that one and the final one.
   */
  function Process(job: BeanJob, videos: map<Int32, VideoRecord>, files: set<string>, env: Env): (ws: seq<BoWrite>)
    ensures ws != [] && ws[0] == StatusSet(job.jobId, PROCESSING, 0)
    ensures |ws| == (if Prepare(job, videos, files, env).Ready? then |env.conversion.progress| + 2 else 2)
  {
    [StatusSet(job.jobId, PROCESSING, 0)] + AfterSetup(job.jobId, Prepare(job, videos, files, env), env)
  }

  /**
   * The writes: first PROCESSING at 0%, then only PROCESSING progress writes, then exactly
   * one terminal write, which fails or completes the job; all for this job.
   */
  lemma ProcessWritesShape(job: BeanJob, videos: map<Int32, VideoRecord>, files: set<string>, env: Env)
    ensures var ws := Process(job, videos, files, env);
            |ws| >= 2 && ws[0] == StatusSet(job.jobId, PROCESSING, 0) &&
            IsTerminal(ws[|ws| - 1]) &&
            (forall i :: 0 <= i < |ws| - 1 ==> ws[i].StatusSet? && ws[i].status == PROCESSING) &&
            (forall i :: 0 <= i < |ws| ==> ws[i].jobId == job.jobId)
  {
    var ws := Process(job, videos, files, env);
    match Prepare(job, videos, files, env)
    case Refused(_) =>
    case Ready(_, output) =>
      var pw := ProgressWrites(job.jobId, env.conversion.progress);
      assert ws == [StatusSet(job.jobId, PROCESSING, 0)] + pw + [Outcome(job.jobId, output, env.conversion, env.outputExists)];
      forall i | 0 < i < |ws| - 1 ensures ws[i].StatusSet? && ws[i].status == PROCESSING && ws[i].jobId == job.jobId {
        assert ws[i] == pw[i - 1];
      }
  }

  /** A job is completed only when the converter returned true and the output file exists. */
  lemma CompletesOnlyOnSuccess(job: BeanJob, videos: map<Int32, VideoRecord>, files: set<string>, env: Env)
    ensures var ws := Process(job, videos, files, env);
            ws[|ws| - 1].JobCompleted? <==>
              Prepare(job, videos, files, env).Ready? &&
              env.conversion.Returned? && env.conversion.success && env.outputExists
    ensures var ws := Process(job, videos, files, env);
            ws[|ws| - 1].JobCompleted? ==> ws[|ws| - 1].outputPath == Prepare(job, videos, files, env).output
  {
  }

  /**
   * A failed job carries one of the fixed messages, no message (a null pointer), or the
   * message of the exception the converter threw.
   */
  lemma FailureMessages(job: BeanJob, videos: map<Int32, VideoRecord>, files: set<string>, env: Env)
    ensures var ws := Process(job, videos, files, env);
            var last := ws[|ws| - 1];
            last.JobFailed? ==>
              last.message in {Some("Video not found"), Some("Video file not found"),
                               Some("Failed to create output directory"), Some("Conversion failed"), None} ||
              (env.conversion.Threw? && last.message == env.conversion.message)
  {
  }

  /**
   * For a row whose file exists and whose name and directory are in order, the output goes
   * to the input's directory, under "converted", named after the original.
   */
  lemma OutputBesideInput(job: BeanJob, videos: map<Int32, VideoRecord>, files: set<string>, env: Env)
    requires Prepare(job, videos, files, env).Ready?
    ensures var video := videos[job.videoId];
            var input := video.filePath.value;
            Prepare(job, videos, files, env).output ==
              Absolute(Child(OutputDirectory(input), OutputFilename(video.filename.value, job.outputFormat)), env.cwd)
  {
  }

  // ---------------------------------------------------------------- the business object

  class ConversionBO {
    var running: bool
    /** Whether stopWorkers has shut the executor down. */
    var shutDown: bool
    /** How many worker loops the executor has been handed. */
    var workers: nat
    /** jobQueue: unbounded, first in first out. */
    var queue: seq<BeanJob>
    /** The videos table by id. */
    var videos: map<Int32, VideoRecord>
    /** The conversion_jobs table by id. */
    var jobs: map<Int32, BeanJob>
    /** The files that exist, by absolute path. */
    var files: set<string>
    /** The writes issued to the jobs table, oldest first. */
    var log: seq<BoWrite>

    /** Workers are launched by the first start and only then; a stopped executor launches none. */
    predicate Valid()
      reads this
    {
      (workers == 0 || workers == WORKER_COUNT) && (!shutDown ==> (workers == WORKER_COUNT <==> running))
    }

    constructor (videos: map<Int32, VideoRecord>, jobs: map<Int32, BeanJob>, files: set<string>)
      ensures Valid() && !running && !shutDown && workers == 0 && queue == [] && log == []
      ensures this.videos == videos && this.jobs == jobs && this.files == files
    {
      running, shutDown, workers, queue, log := false, false, 0, [], [];
      this.videos, this.jobs, this.files := videos, jobs, files;
    }

    /**
     * startWorkers: nothing happens while running. Otherwise the pending jobs, as the store
     * lists them (oldest first), join the queue and two workers start; after stopWorkers the
     * executor rejects the first of them, which `rejected` reports.
     */
    method StartWorkers(pending: seq<BeanJob>) returns (rejected: bool)
      requires Valid()
      modifies this
      ensures Valid()
      ensures old(running) ==> !rejected && queue == old(queue) && workers == old(workers)
      ensures !old(running) ==> running && queue == old(queue) + pending && rejected == shutDown
      ensures !old(running) && !shutDown ==> workers == WORKER_COUNT
      ensures running && shutDown == old(shutDown)
      ensures videos == old(videos) && jobs == old(jobs) && files == old(files) && log == old(log)
    {
      if running {
        return false;
      }
      running := true;
      queue := queue + pending;
      if shutDown {
        return true;
      }
      var i := 0;
      while i < WORKER_COUNT
        invariant 0 <= i <= WORKER_COUNT && workers == i && running && !shutDown
        invariant queue == old(queue) + pending
        invariant videos == old(videos) && jobs == old(jobs) && files == old(files) && log == old(log)
      {
        workers := workers + 1;
        i := i + 1;
      }
      return false;
    }

    /** stopWorkers: unconditionally not running, and the executor shut down. */
    method StopWorkers()
      requires Valid()
      modifies this
      ensures Valid()
      ensures !running && shutDown
      ensures workers == old(workers) && queue == old(queue)
      ensures videos == old(videos) && jobs == old(jobs) && files == old(files) && log == old(log)
    {
      running := false;
      shutDown := true;
    }

    /**
     * submitJob: creates the video row and then the job row (PENDING, 0%) under the ids the
     * database hands out (None where an insert fails), queues the job and returns it; None,
     * with nothing queued, when either insert fails.
     */
    method SubmitJob(userId: Int32, filename: Option<string>, filePath: Option<string>, fileSize: int,
                     outputFormat: Option<string>, videoKey: Option<Int32>, jobKey: Option<Int32>)
      returns (job: Option<BeanJob>)
      modifies this
      ensures job.Some? <==> videoKey.Some? && jobKey.Some?
      ensures job.Some? ==>
                job.value == Basic(videoKey.value, userId, outputFormat).(jobId := jobKey.value) &&
                queue == old(queue) + [job.value] &&
                jobs == old(jobs)[jobKey.value := job.value]
      ensures job.None? ==> queue == old(queue) && jobs == old(jobs)
      // the video row stays even when the job insert then fails
      ensures videoKey.Some? ==>
                videos == old(videos)[videoKey.value := VideoRecord(videoKey.value, userId, filename, filePath, fileSize)]
      ensures videoKey.None? ==> videos == old(videos)
      ensures running == old(running) && shutDown == old(shutDown) && workers == old(workers)
      ensures files == old(files) && log == old(log)
    {
      if videoKey.None? {
        return None;
      }
      videos := videos[videoKey.value := VideoRecord(videoKey.value, userId, filename, filePath, fileSize)];
      var created := Basic(videoKey.value, userId, outputFormat);
      if jobKey.None? {
        return None;
      }
      created := created.(jobId := jobKey.value);
      jobs := jobs[jobKey.value := created];
      queue := queue + [created];
      return Some(created);
    }

    /**
     * deleteJob: refused (false, nothing changes) when the job is not found (no row, or no
     * video row to join) or belongs to someone else; otherwise its output file, if there is
     * one, is removed and so is its row.
     */
    method DeleteJob(jobId: Int32, userId: Int32, cwd: string) returns (deleted: bool)
      modifies this
      ensures deleted <==> jobId in old(jobs) && old(jobs)[jobId].videoId in old(videos) &&
                           old(jobs)[jobId].userId == userId
      ensures !deleted ==> jobs == old(jobs) && files == old(files)
      ensures deleted ==> jobs == old(jobs) - {jobId} &&
                          files == (if old(jobs)[jobId].outputPath.Some?
                                    then old(files) - {Absolute(old(jobs)[jobId].outputPath.value, cwd)}
                                    else old(files))
      ensures running == old(running) && shutDown == old(shutDown) && workers == old(workers)
      ensures queue == old(queue) && videos == old(videos) && log == old(log)
    {
      if jobId !in jobs || jobs[jobId].videoId !in videos {
        return false;
      }
      var job := jobs[jobId];
      if job.userId != userId {
        return false;
      }
      if job.outputPath.Some? {
        var file := Absolute(job.outputPath.value, cwd);
        if file in files {
          files := files - {file};
        }
      }
      jobs := jobs - {jobId};
      return true;
    }

    /** One write, issued and applied. */
    method Issue(w: BoWrite, now: int)
      modifies this
      ensures jobs == Apply(old(jobs), w, now) && log == old(log) + [w]
      ensures running == old(running) && shutDown == old(shutDown) && workers == old(workers)
      ensures queue == old(queue) && videos == old(videos) && files == old(files)
    {
      jobs := Apply(jobs, w, now);
      log := log + [w];
    }

    /** The converter's progress callback, once per reported value. */
    method ReportProgress(id: Int32, progress: seq<int>, now: int)
      modifies this
      ensures log == old(log) + ProgressWrites(id, progress)
      ensures jobs == ApplyAll(old(jobs), ProgressWrites(id, progress), now)
      ensures running == old(running) && shutDown == old(shutDown) && workers == old(workers)
      ensures queue == old(queue) && videos == old(videos) && files == old(files)
    {
      var i := 0;
      while i < |progress|
        invariant 0 <= i <= |progress|
        invariant log == old(log) + ProgressWrites(id, progress[..i])
        invariant jobs == ApplyAll(old(jobs), ProgressWrites(id, progress[..i]), now)
        invariant running == old(running) && shutDown == old(shutDown) && workers == old(workers)
        invariant queue == old(queue) && videos == old(videos) && files == old(files)
      {
        assert progress[..i + 1][..i] == progress[..i];
        AppendAssoc(old(log), ProgressWrites(id, progress[..i]), [StatusSet(id, PROCESSING, progress[i])]);
        ApplyAllSnoc(old(jobs), ProgressWrites(id, progress[..i]), StatusSet(id, PROCESSING, progress[i]), now);
        Issue(StatusSet(id, PROCESSING, progress[i]), now);
        i := i + 1;
      }
      assert progress[..i] == progress;
    }

    /**
     * processJob: PROCESSING at 0%, the lookups, the conversion with its progress writes, and
     * one write that fails or completes the job. The job is never queued again.
     */
    method ProcessJob(job: BeanJob, env: Env)
      modifies this
      ensures var ws := Process(job, old(videos), old(files), env);
              log == old(log) + ws && jobs == ApplyAll(old(jobs), ws, env.now)
      ensures running == old(running) && shutDown == old(shutDown) && workers == old(workers)
      ensures queue == old(queue) && videos == old(videos) && files == old(files)
    {
      var id := job.jobId;
      var first := StatusSet(id, PROCESSING, 0);
      Issue(first, env.now);
      ApplyAllSnoc(old(jobs), [], first, env.now);
      assert [] + [first] == [first];
      ghost var log1, jobs1 := log, jobs;
      var setup := Prepare(job, videos, files, env);
      if setup.Refused? {
        Issue(JobFailed(id, setup.message), env.now);
      } else {
        Convert(id, setup.output, env);
      }
      assert log == log1 + AfterSetup(id, setup, env) && jobs == ApplyAll(jobs1, AfterSetup(id, setup, env), env.now);
      AppendAssoc(old(log), [first], AfterSetup(id, setup, env));
      ApplyAllAppend(old(jobs), [first], AfterSetup(id, setup, env), env.now);
    }

    /** The converter's run once the lookups succeeded: its progress writes, then the outcome. */
    method Convert(id: Int32, output: string, env: Env)
      modifies this
      ensures var ws := AfterSetup(id, Ready("", output), env);
              log == old(log) + ws && jobs == ApplyAll(old(jobs), ws, env.now)
      ensures running == old(running) && shutDown == old(shutDown) && workers == old(workers)
      ensures queue == old(queue) && videos == old(videos) && files == old(files)
    {
      var progressed := ProgressWrites(id, env.conversion.progress);
      ReportProgress(id, env.conversion.progress, env.now);
      var last := Outcome(id, output, env.conversion, env.outputExists);
      ApplyAllSnoc(old(jobs), progressed, last, env.now);
      AppendAssoc(old(log), progressed, [last]);
      Issue(last, env.now);
    }

    /**
     * One turn of a worker's loop: while running, the job at the head of the queue, if any,
     * is taken and processed.
     */
    method ProcessOne(env: Env) returns (took: bool)
      modifies this
      ensures took <==> old(running) && old(queue) != []
      ensures took ==> queue == old(queue)[1..] &&
                       var ws := Process(old(queue)[0], old(videos), old(files), env);
                       log == old(log) + ws && jobs == ApplyAll(old(jobs), ws, env.now)
      ensures !took ==> queue == old(queue) && log == old(log) && jobs == old(jobs)
      ensures running == old(running) && shutDown == old(shutDown) && workers == old(workers)
      ensures videos == old(videos) && files == old(files)
    {
      if !running || queue == [] {
        return false;
      }
      var job := queue[0];
      queue := queue[1..];
      ProcessJob(job, env);
      return true;
    }
  }
}
