/**
 * service/ConversionService.java: the job queue, its workers and the processing of one job.
 * Worker threads are replaced by steps: each `ProcessOne` is one turn of a worker's loop.
 * The job store is a map from job id to row; the service also keeps the writes it issues,
 * in order, so that what happens between the first and the last write can be stated.
 */
module Service {
  import opened Wrappers
  import opened Text
  import opened Job
  import opened Paths
  import opened Supervisor

  const WORKER_THREAD_COUNT: nat := 3
  /** loadPendingJobs asks the store for at most this many pending jobs. */
  const PENDING_LIMIT: nat := 100
  const FAILED_PREFIX: string := "Conversion failed: "
  const CONVERTER_FAILED: string := "FFmpeg conversion failed"
  /** getMessage() of the NullPointerException a null path or name raises. */
  const NULL_MESSAGE: string := "null"

  // ---------------------------------------------------------------- the job store

  /** A write to the store: `update(job)` or `updateProgress(jobId, progress)`. */
  datatype Write = Saved(job: JobRecord) | ProgressSaved(jobId: Int32, progress: int)

  /**
   * The columns `update` writes from the job: status (a null status as PENDING), progress,
   * the three outputs, both timestamps, the error message and the retry count.
   */
  function Persist(row: JobRecord, job: JobRecord): JobRecord
  {
    row.(status := Some(job.status.GetOr(PENDING)), progress := job.progress,
         outputFilename := job.outputFilename, outputPath := job.outputPath, outputSize := job.outputSize,
         startedAt := job.startedAt, completedAt := job.completedAt,
         errorMessage := job.errorMessage, retryCount := job.retryCount)
  }

  /** One write: an UPDATE of the row with the job's id; no row, no change. */
  function Apply(store: map<Int32, JobRecord>, w: Write): map<Int32, JobRecord>
  {
    match w
    case Saved(job) =>
      if job.jobId in store then store[job.jobId := Persist(store[job.jobId], job)] else store
    case ProgressSaved(id, p) =>
      if id in store then store[id := store[id].(progress := ClampProgress(p))] else store
  }

  /** The writes, oldest first. */
  function ApplyAll(store: map<Int32, JobRecord>, ws: seq<Write>): map<Int32, JobRecord>
  {
    if ws == [] then store else Apply(ApplyAll(store, ws[..|ws| - 1]), ws[|ws| - 1])
  }

  lemma ApplyAllSnoc(store: map<Int32, JobRecord>, ws: seq<Write>, w: Write)
    ensures ApplyAll(store, ws + [w]) == Apply(ApplyAll(store, ws), w)
  {
    assert (ws + [w])[..|ws|] == ws;
  }

  /** Applying two batches of writes is applying their concatenation. */
  lemma {:induction false} ApplyAllAppend(store: map<Int32, JobRecord>, a: seq<Write>, b: seq<Write>)
    ensures ApplyAll(ApplyAll(store, a), b) == ApplyAll(store, a + b)
    decreases |b|
  {
    if b == [] {
      assert a + b == a;
    } else {
      var front, last := b[..|b| - 1], b[|b| - 1];
      assert b == front + [last];
      assert a + b == (a + front) + [last];
      ApplyAllAppend(store, a, front);
      ApplyAllSnoc(store, a + front, last);
    }
  }

  /** A progress write only moves the progress of its row, into 0..100. */
  lemma ProgressWriteTouchesOnlyProgress(store: map<Int32, JobRecord>, id: Int32, p: int)
    ensures Apply(store, ProgressSaved(id, p)).Keys == store.Keys
    ensures forall k :: k in store && k != id ==> Apply(store, ProgressSaved(id, p))[k] == store[k]
    ensures id in store ==>
              Apply(store, ProgressSaved(id, p))[id] == store[id].(progress := ClampProgress(p)) &&
              0 <= Apply(store, ProgressSaved(id, p))[id].progress <= 100
  {
  }

  // ---------------------------------------------------------------- output paths

  /**
   * getOutputDirectory: "converted" beside the directory that holds the input, as an absolute
   * path. An input with no parent makes `getParentFile()` of null throw (None); one whose
   * parent has no parent yields "converted" under the working directory.
   */
  function OutputDirectory(inputPath: string, cwd: string): (r: Option<string>)
    ensures r.None? <==> Parent(inputPath).None?
  {
    match Parent(inputPath)
    case None => None
    case Some(uploads) =>
      match Parent(uploads)
      case None => Some(Absolute("converted", cwd))
      case Some(webapp) => Some(Absolute(Child(webapp, "converted"), cwd))
  }

  /** A path with no empty segment: no "//" and no trailing '/' except the root itself. */
  predicate Normalised(p: string)
  {
    (forall i :: 0 <= i < |p| - 1 ==> !(p[i] == SEPARATOR && p[i + 1] == SEPARATOR)) &&
    (|p| > 1 ==> p[|p| - 1] != SEPARATOR)
  }

  /**
   * For an absolute, normalised input two levels deep, the output directory is a child of the
   * input's grandparent: converted files sit beside the uploads directory.
   */
  lemma OutputBesideUploads(inputPath: string, cwd: string)
    requires IsAbsolute(inputPath) && Normalised(inputPath)
    requires Parent(inputPath).Some? && Parent(Parent(inputPath).value).Some?
    ensures var dir := OutputDirectory(inputPath, cwd);
            dir.Some? && Parent(dir.value) == Parent(Parent(inputPath).value)
  {
    var u := Parent(inputPath).value;
    var g := Parent(u).value;
    assert StartsWith(inputPath, u) && StartsWith(u, g);
    assert inputPath[..|g|] == g;
    assert g[0] == SEPARATOR by { assert u[0] == inputPath[0]; assert g[0] == u[0]; }
    if g != "/" {
      assert u[|g|] == SEPARATOR by { ParentIsDirectory(u); }
      assert inputPath[|g|] == SEPARATOR;
      assert g[|g| - 1] == inputPath[|g| - 1];
    }
    ParentOfChild(g, "converted");
  }

  /**
   * generateOutputFilename: the original name without its extension, "_converted_", the
   * clock reading and the format (a null format prints as "null"); None where the null
   * original name makes `lastIndexOf` throw.
   */
  function OutputFilename(original: Option<string>, format: Option<string>, stamp: int): (r: Option<string>)
    ensures r.Some? <==> original.Some?
  {
    match original
    case None => None
    case Some(name) =>
      Some(StripExtension(name) + "_converted_" + IntToString(stamp) + "." + format.GetOr(NULL_MESSAGE))
  }

  /**
   * The output name reads back: its extension is the requested format and what precedes it is
   * the original base name, the marker and the clock reading.
   */
  lemma OutputFilenameReadsBack(name: string, format: string, stamp: int)
    requires '.' !in format
    ensures var r := OutputFilename(Some(name), Some(format), stamp).value;
            Probe.Extension(r) == Some(format) &&
            StripExtension(r) == StripExtension(name) + "_converted_" + IntToString(stamp)
  {
    var stem := StripExtension(name) + "_converted_" + IntToString(stamp);
    var r := OutputFilename(Some(name), Some(format), stamp).value;
    assert r == stem + "." + format;
    StemThenFormat(stem, format);
  }

  // ---------------------------------------------------------------- processing one job

  /** A row of the videos table, as far as processJob reads it. */
  datatype VideoRow = VideoRow(filePath: Option<string>, originalFilename: Option<string>)

  /**
   * Everything processJob learns from outside: the videos table, the files that exist
   * (absolute paths), the working directory, the three clock readings (start, the name's
   * stamp, the end), what convertVideo reported and the length of the output file.
   */
  datatype Env = Env(videos: map<Int32, VideoRow>, files: set<string>, cwd: string,
                     started: int, stamp: int, finished: int,
                     conversion: Outcome, outputLength: int)

  /** The progress the listener leaves on the job: the last percent reported, clamped. */
  function Reported(progress: Int32, notices: seq<Notice>): (r: Int32)
    ensures notices == [] ==> r == progress
  {
    if notices == [] then progress
    else match notices[|notices| - 1]
      case OnProgress(p, _, _) => ClampProgress(p)
      case _ => Reported(progress, notices[..|notices| - 1])
  }

  /** The store writes the listener makes: one per progress callback. */
  function ProgressWrites(id: Int32, notices: seq<Notice>): (ws: seq<Write>)
    ensures |ws| <= |notices|
    ensures forall w :: w in ws ==> w.ProgressSaved? && w.jobId == id
  {
    if notices == [] then []
    else
      var front := ProgressWrites(id, notices[..|notices| - 1]);
      match notices[|notices| - 1]
      case OnProgress(p, _, _) => front + [ProgressSaved(id, p)]
      case _ => front
  }

  /** How the `try` block of processJob ends. */
  datatype Attempt =
    | Converted(job: JobRecord, writes: seq<Write>, name: string, path: string)
    | Thrown(job: JobRecord, writes: seq<Write>, message: string)

  /** The job as processJob first saves it: PROCESSING and started; its progress is kept. */
  function Started(job: JobRecord, env: Env): JobRecord
  {
    job.(status := Some(PROCESSING), startedAt := Some(env.started))
  }

  /**
   * The lookups before convertVideo, each of which can throw: the video row, its file path,
   * the file itself, the output directory and the output name. The result is the output
   * name and path, or the message of the exception. It succeeds exactly when the video row
   * exists with a path, the file exists, the path has a parent and the original name is set;
   * the output path then ends with '/' and the output name.
   */
  function Prepare(videoId: Int32, format: Option<string>, env: Env): (r: Result<(string, string)>)
    ensures r.Ok? <==>
              videoId in env.videos && env.videos[videoId].filePath.Some? &&
              Absolute(env.videos[videoId].filePath.value, env.cwd) in env.files &&
              Parent(env.videos[videoId].filePath.value).Some? && env.videos[videoId].originalFilename.Some?
    ensures r.Ok? ==> var (name, path) := r.value;
              |name| < |path| && path[|path| - |name| - 1] == SEPARATOR && path[|path| - |name|..] == name
  {
    if videoId !in env.videos then Err("Video not found: ID " + IntToString(videoId))
    else
      var video := env.videos[videoId];
      if video.filePath.None? then Err(NULL_MESSAGE)
      else
        var input := video.filePath.value;
        if Absolute(input, env.cwd) !in env.files then Err("Input file does not exist: " + input)
        else
          var dir := OutputDirectory(input, env.cwd);
          var name := OutputFilename(video.originalFilename, format, env.stamp);
          if dir.None? || name.None? then Err(NULL_MESSAGE)
          else Ok((name.value, dir.value + [SEPARATOR] + name.value))
  }

  /** The `try` block of processJob, up to a successful conversion or the first exception. */
  function TryConvert(job: JobRecord, env: Env): Attempt
  {
    var s := Started(job, env);
    match Prepare(job.videoId, job.settings.outputFormat, env)
    case Err(message) => Thrown(s, [Saved(s)], message)
    case Ok((name, path)) =>
      var notices := env.conversion.notices;
      var r := s.(progress := Reported(s.progress, notices));
      var ws := [Saved(s)] + ProgressWrites(job.jobId, notices);
      if env.conversion.ok then Converted(r, ws, name, path) else Thrown(r, ws, CONVERTER_FAILED)
  }

  /** What processJob leaves: the job, the writes, whether it re-submits the job, whether it credits the user. */
  datatype Processed = Processed(job: JobRecord, writes: seq<Write>, resubmitted: bool, credited: bool)

  /** The job as the success branch saves it: COMPLETED at 100% with its outputs. */
  function Completed(r: JobRecord, env: Env, name: string, path: string): JobRecord
  {
    r.(status := Some(COMPLETED), progress := 100, completedAt := Some(env.finished),
       outputFilename := Some(name), outputPath := Some(path), outputSize := Some(env.outputLength))
  }

  /** The job as the `catch` block saves it when it cannot retry: FAILED with the message. */
  function Failed(r: JobRecord, env: Env, message: string): JobRecord
  {
    r.(status := Some(FAILED), errorMessage := Some(FAILED_PREFIX + message), completedAt := Some(env.finished))
  }

  /**
   * processJob as written, the retry branch of its `catch` included. The last write saves
   * the job as it is left; the owner is credited exactly when it is COMPLETED, and it is
   * re-submitted exactly when it is PENDING again.
   */
  function Process(job: JobRecord, env: Env): (p: Processed)
    ensures p.writes != [] && p.writes[|p.writes| - 1] == Saved(p.job)
    ensures p.job.jobId == job.jobId
    ensures p.credited <==> p.job.status == Some(COMPLETED)
    ensures p.resubmitted <==> p.job.status == Some(PENDING)
  {
    match TryConvert(job, env)
    case Converted(r, ws, name, path) =>
      var done := Completed(r, env, name, path);
      Processed(done, ws + [Saved(done)], false, true)
    case Thrown(r, ws, message) =>
      if Retryable(r) then
        var again := r.(status := Some(PENDING), retryCount := Wrap32(r.retryCount + 1));
        Processed(again, ws + [Saved(again)], true, false)
      else
        var failed := Failed(r, env, message);
        Processed(failed, ws + [Saved(failed)], false, false)
  }

  /** incrementTotalConversions: one more conversion for the user, when there is such a user. */
  function Credit(totals: map<Int32, int>, userId: Int32): map<Int32, int>
  {
    if userId in totals then totals[userId := totals[userId] + 1] else totals
  }

  /** Whenever the `try` block throws, the job is PROCESSING, so canRetry is false there. */
  lemma ThrowsWhileProcessing(job: JobRecord, env: Env)
    ensures TryConvert(job, env).job.status == Some(PROCESSING)
    ensures !Retryable(TryConvert(job, env).job)
  {
  }

  /**
   * The retry branch never runs: no job is re-submitted, its retry count never moves, and
   * every job ends COMPLETED or FAILED, with its start and end times recorded.
   */
  lemma NeverRetried(job: JobRecord, env: Env)
    ensures var p := Process(job, env);
            !p.resubmitted && p.job.retryCount == job.retryCount &&
            (p.job.status == Some(COMPLETED) || p.job.status == Some(FAILED)) &&
            p.job.startedAt == Some(env.started) && p.job.completedAt == Some(env.finished) &&
            p.job.jobId == job.jobId && p.job.settings == job.settings
  {
    ThrowsWhileProcessing(job, env);
  }

  /**
   * The writes: first the job saved PROCESSING and started with its progress untouched, then
   * only progress writes for this job, then one save of the final job.
   */
  lemma WritesInOrder(job: JobRecord, env: Env)
    ensures var ws := Process(job, env).writes;
            |ws| >= 2 &&
            ws[0] == Saved(job.(status := Some(PROCESSING), startedAt := Some(env.started))) &&
            ws[|ws| - 1] == Saved(Process(job, env).job) &&
            forall i :: 0 < i < |ws| - 1 ==> ws[i].ProgressSaved? && ws[i].jobId == job.jobId
  {
    ThrowsWhileProcessing(job, env);
    var ws := Process(job, env).writes;
    var a := TryConvert(job, env);
    forall i | 0 < i < |ws| - 1 ensures ws[i].ProgressSaved? && ws[i].jobId == job.jobId {
      assert ws[i] == a.writes[i];
      assert ws[i] in ProgressWrites(job.jobId, env.conversion.notices);
    }
  }

  /**
   * Everything convertVideo needs is there: the video row, its file path, the file itself,
   * a parent directory for the input and an original name.
   */
  predicate Ready(job: JobRecord, env: Env)
  {
    job.videoId in env.videos &&
    env.videos[job.videoId].filePath.Some? &&
    Absolute(env.videos[job.videoId].filePath.value, env.cwd) in env.files &&
    Parent(env.videos[job.videoId].filePath.value).Some? &&
    env.videos[job.videoId].originalFilename.Some?
  }

  /** The job completes exactly when it is ready and convertVideo succeeded. */
  lemma CompletesExactlyWhen(job: JobRecord, env: Env)
    ensures var p := Process(job, env);
            p.job.status == Some(COMPLETED) <==> Ready(job, env) && env.conversion.ok
    ensures var p := Process(job, env);
            p.job.status == Some(COMPLETED) ==>
              p.credited && p.job.progress == 100 && p.job.errorMessage == job.errorMessage &&
              var video := env.videos[job.videoId];
              var name := OutputFilename(video.originalFilename, job.settings.outputFormat, env.stamp).value;
              p.job.outputFilename == Some(name) &&
              p.job.outputPath == Some(OutputDirectory(video.filePath.value, env.cwd).value + [SEPARATOR] + name) &&
              p.job.outputSize == Some(env.outputLength)
  {
    ThrowsWhileProcessing(job, env);
  }

  /** A failed job carries "Conversion failed: " and the message of what went wrong. */
  lemma FailureMessages(job: JobRecord, env: Env)
    ensures var p := Process(job, env);
            p.job.status == Some(FAILED) ==>
              !p.credited && p.job.outputPath == job.outputPath &&
              p.job.errorMessage == Some(FAILED_PREFIX + TryConvert(job, env).message)
    ensures job.videoId !in env.videos ==>
              Process(job, env).job.errorMessage == Some(FAILED_PREFIX + ("Video not found: ID " + IntToString(job.videoId)))
    ensures job.videoId in env.videos && env.videos[job.videoId].filePath.Some? &&
            Absolute(env.videos[job.videoId].filePath.value, env.cwd) !in env.files ==>
              Process(job, env).job.errorMessage ==
                Some(FAILED_PREFIX + ("Input file does not exist: " + env.videos[job.videoId].filePath.value))
    ensures Ready(job, env) && !env.conversion.ok ==>
              Process(job, env).job.errorMessage == Some(FAILED_PREFIX + CONVERTER_FAILED)
  {
    ThrowsWhileProcessing(job, env);
  }

  // ---------------------------------------------------------------- the service

  class ConversionService {
    /** isRunning */
    var running: bool
    /** Whether the executor has been shut down (by stop). */
    var shutDown: bool
    /** How many worker loops the executor has been handed. */
    var workers: nat
    /** jobQueue: an unbounded FIFO queue. */
    var queue: seq<ConversionJob>
    /** The conversion_jobs rows by job id. */
    var store: map<Int32, JobRecord>
    /** The writes issued to the store, oldest first. */
    var log: seq<Write>
    /** users.total_conversions by user id. */
    var totals: map<Int32, int>

    /** Workers are launched once, by the first start, and only then. */
    predicate Valid()
      reads this
    {
      workers == (if running || shutDown then WORKER_THREAD_COUNT else 0)
    }

    /** The constructor: not running, an empty queue, over the given tables. */
    constructor (store: map<Int32, JobRecord>, totals: map<Int32, int>)
      ensures Valid() && !running && !shutDown && workers == 0
      ensures queue == [] && log == [] && this.store == store && this.totals == totals
    {
      running, shutDown, workers := false, false, 0;
      queue, log := [], [];
      this.store, this.totals := store, totals;
    }

    /**
     * start: nothing happens while running. Otherwise the service is marked running and
     * three workers are launched, unless stop has already shut the executor down: then the
     * first submission is rejected, and `rejected` reports the exception start throws.
     */
    method Start() returns (rejected: bool)
      requires Valid()
      modifies this
      ensures Valid()
      ensures old(running) ==> !rejected && running && workers == old(workers)
      ensures !old(running) ==> running && rejected == shutDown
      ensures !old(running) && !shutDown ==> workers == WORKER_THREAD_COUNT
      ensures shutDown == old(shutDown) && queue == old(queue) && store == old(store)
      ensures log == old(log) && totals == old(totals)
    {
      if running {
        return false;
      }
      running := true;
      if shutDown {
        return true;
      }
      var i := 0;
      while i < WORKER_THREAD_COUNT
        invariant 0 <= i <= WORKER_THREAD_COUNT && workers == i && running && !shutDown
        invariant queue == old(queue) && store == old(store) && log == old(log) && totals == old(totals)
      {
        workers := workers + 1;
        i := i + 1;
      }
      return false;
    }

    /** stop: nothing happens while stopped; otherwise the service stops and its executor shuts down. */
    method Stop()
      requires Valid()
      modifies this
      ensures Valid()
      ensures !running
      ensures shutDown == (old(shutDown) || old(running))
      ensures workers == old(workers) && queue == old(queue) && store == old(store)
      ensures log == old(log) && totals == old(totals)
    {
      if !running {
        return;
      }
      running := false;
      shutDown := true;
    }

    /**
     * submitJob: refused (false, nothing changes) when the service is not running or there is
     * no job; otherwise a null status becomes PENDING and the job joins the back of the queue.
     */
    method SubmitJob(job: ConversionJob?) returns (added: bool)
      modifies this, job
      ensures added <==> old(running) && job != null
      ensures added ==> queue == old(queue) + [job] &&
                        job.Record() == old(job.Record()).(status := Some(old(job.status).GetOr(PENDING)))
      ensures !added ==> queue == old(queue) && (job != null ==> job.Record() == old(job.Record()))
      ensures running == old(running) && shutDown == old(shutDown) && workers == old(workers)
      ensures store == old(store) && log == old(log) && totals == old(totals)
    {
      if !running {
        return false;
      }
      if job == null {
        return false;
      }
      if job.status.None? {
        job.status := Some(PENDING);
      }
      queue := queue + [job];
      return true;
    }

    /**
     * loadPendingJobs: submits the pending jobs the store returns (at most PENDING_LIMIT of
     * `pending`, which lists them in the store's order) and counts those accepted.
     */
    method LoadPendingJobs(pending: seq<ConversionJob>) returns (count: int)
      modifies this, pending
      ensures var batch := if |pending| <= PENDING_LIMIT then pending else pending[..PENDING_LIMIT];
              count == (if old(running) then |batch| else 0) &&
              queue == old(queue) + (if old(running) then batch else [])
      ensures 0 <= count <= PENDING_LIMIT && count <= |pending|
      ensures running == old(running) && shutDown == old(shutDown) && workers == old(workers)
      ensures store == old(store) && log == old(log) && totals == old(totals)
    {
      var batch := if |pending| <= PENDING_LIMIT then pending else pending[..PENDING_LIMIT];
      count := 0;
      var i := 0;
      while i < |batch|
        invariant 0 <= i <= |batch|
        invariant count == (if running then i else 0)
        invariant queue == old(queue) + (if running then batch[..i] else [])
        invariant running == old(running) && shutDown == old(shutDown) && workers == old(workers)
        invariant store == old(store) && log == old(log) && totals == old(totals)
      {
        var added := SubmitJob(batch[i]);
        if added {
          count := count + 1;
        }
        assert batch[..i + 1] == batch[..i] + [batch[i]];
        i := i + 1;
      }
      assert batch[..i] == batch;
    }

    /** One store write, issued and recorded. */
    method Issue(w: Write)
      modifies this
      ensures store == Apply(old(store), w) && log == old(log) + [w]
      ensures running == old(running) && shutDown == old(shutDown) && workers == old(workers)
      ensures queue == old(queue) && totals == old(totals)
    {
      store := Apply(store, w);
      log := log + [w];
    }

    /** The listener's callbacks during convertVideo: each progress report is set on the job and saved. */
    method ReplayProgress(job: ConversionJob, notices: seq<Notice>)
      modifies this, job
      ensures job.Record() == old(job.Record()).(progress := Reported(old(job.progress), notices))
      ensures log == old(log) + ProgressWrites(old(job.jobId), notices)
      ensures store == ApplyAll(old(store), ProgressWrites(old(job.jobId), notices))
      ensures running == old(running) && shutDown == old(shutDown) && workers == old(workers)
      ensures queue == old(queue) && totals == old(totals)
    {
      ghost var j0 := job.Record();
      var i := 0;
      while i < |notices|
        invariant 0 <= i <= |notices|
        invariant job.Record() == j0.(progress := Reported(j0.progress, notices[..i]))
        invariant log == old(log) + ProgressWrites(j0.jobId, notices[..i])
        invariant store == ApplyAll(old(store), ProgressWrites(j0.jobId, notices[..i]))
        invariant running == old(running) && shutDown == old(shutDown) && workers == old(workers)
        invariant queue == old(queue) && totals == old(totals)
      {
        assert notices[..i + 1][..i] == notices[..i];
        match notices[i] {
          case OnProgress(p, _, _) =>
            job.SetProgress(p);
            ApplyAllSnoc(old(store), ProgressWrites(j0.jobId, notices[..i]), ProgressSaved(j0.jobId, p));
            Issue(ProgressSaved(job.jobId, p));
          case _ =>
        }
        i := i + 1;
      }
      assert notices[..i] == notices;
    }

    /** The `try` block of processJob, to a successful conversion or the first exception. */
    method TryConvertJob(job: ConversionJob, env: Env) returns (thrown: Option<string>, name: string, path: string)
      modifies this, job
      ensures var a := TryConvert(old(job.Record()), env);
              job.Record() == a.job && log == old(log) + a.writes &&
              store == ApplyAll(old(store), a.writes) &&
              (thrown.None? <==> a.Converted?) &&
              (a.Converted? ==> name == a.name && path == a.path) &&
              (a.Thrown? ==> thrown == Some(a.message))
      ensures running == old(running) && shutDown == old(shutDown) && workers == old(workers)
      ensures queue == old(queue) && totals == old(totals)
    {
      ghost var j0 := job.Record();
      var videoId, format := job.videoId, job.outputFormat;
      job.status := Some(PROCESSING);
      job.startedAt := Some(env.started);
      ghost var s := job.Record();
      assert s == Started(j0, env);
      Issue(Saved(job.Record()));
      ApplyAllSnoc(old(store), [], Saved(s));
      assert [] + [Saved(s)] == [Saved(s)];
      var prepared := Prepare(videoId, format, env);
      if prepared.Err? {
        return Some(prepared.error), "", "";
      }
      name, path := prepared.value.0, prepared.value.1;
      // convertVideo runs; its progress callbacks arrive in order
      ghost var store1 := store;
      ReplayProgress(job, env.conversion.notices);
      ApplyAllAppend(old(store), [Saved(s)], ProgressWrites(j0.jobId, env.conversion.notices));
      AppendAssoc(old(log), [Saved(s)], ProgressWrites(j0.jobId, env.conversion.notices));
      if !env.conversion.ok {
        return Some(CONVERTER_FAILED), name, path;
      }
      return None, name, path;
    }

    /** The success branch: the job is marked COMPLETED with its outputs, saved, and its owner credited. */
    method Complete(job: ConversionJob, env: Env, name: string, path: string)
      modifies this, job
      ensures job.Record() == Completed(old(job.Record()), env, name, path)
      ensures log == old(log) + [Saved(job.Record())] && store == Apply(old(store), Saved(job.Record()))
      ensures totals == Credit(old(totals), old(job.userId))
      ensures queue == old(queue) && running == old(running) && shutDown == old(shutDown) && workers == old(workers)
    {
      ghost var j0 := job.Record();
      job.status := Some(COMPLETED);
      job.SetProgress(100);
      assert job.Record() == j0.(status := Some(COMPLETED), progress := 100);
      job.completedAt, job.outputFilename, job.outputPath, job.outputSize :=
        Some(env.finished), Some(name), Some(path), Some(env.outputLength);
      var done := job.Record();
      assert done == Completed(j0, env, name, path);
      Issue(Saved(done));
      totals := Credit(totals, done.userId);
    }

    /** The `catch` block when the job cannot be retried: it is marked FAILED with the message and saved. */
    method Fail(job: ConversionJob, env: Env, message: string)
      modifies this, job
      ensures job.Record() == Failed(old(job.Record()), env, message)
      ensures log == old(log) + [Saved(job.Record())] && store == Apply(old(store), Saved(job.Record()))
      ensures totals == old(totals)
      ensures queue == old(queue) && running == old(running) && shutDown == old(shutDown) && workers == old(workers)
    {
      job.status, job.errorMessage, job.completedAt :=
        Some(FAILED), Some(FAILED_PREFIX + message), Some(env.finished);
      Issue(Saved(job.Record()));
    }

    /**
     * processJob: the job is saved PROCESSING and started, converted, and saved COMPLETED with
     * its outputs, crediting its owner; or, on any exception, saved FAILED with the message.
     * The `catch` block's retry branch is unreachable: the job is PROCESSING there.
     */
    method ProcessJob(job: ConversionJob, env: Env)
      modifies this, job
      ensures var p := Process(old(job.Record()), env);
              job.Record() == p.job && log == old(log) + p.writes && store == ApplyAll(old(store), p.writes) &&
              totals == (if p.credited then Credit(old(totals), old(job.userId)) else old(totals))
      ensures queue == old(queue)
      ensures running == old(running) && shutDown == old(shutDown) && workers == old(workers)
    {
      ghost var j0 := job.Record();
      var thrown, name, path := TryConvertJob(job, env);
      ghost var a := TryConvert(j0, env);
      if thrown.None? {
        Complete(job, env, name, path);
      } else {
        ThrowsWhileProcessing(j0, env);
        if job.CanRetry() {
          assert false;
        }
        Fail(job, env, thrown.value);
      }
      ApplyAllSnoc(old(store), a.writes, log[|log| - 1]);
      AppendAssoc(old(log), a.writes, [log[|log| - 1]]);
    }

    /**
     * One turn of a worker's loop: while running, take the job at the head of the queue, if
     * any, and process it. `took` says whether a job was taken.
     */
    method ProcessOne(env: Env) returns (took: bool)
      modifies this, if running && queue != [] then {queue[0]} else {}
      ensures took <==> old(running) && old(queue) != []
      ensures took ==> queue == old(queue)[1..] &&
                       var p := Process(old(queue[0].Record()), env);
                       queue == old(queue)[1..] && log == old(log) + p.writes &&
                       store == ApplyAll(old(store), p.writes) && old(queue)[0].Record() == p.job &&
                       totals == (if p.credited then Credit(old(totals), old(queue[0].userId)) else old(totals))
      ensures !took ==> queue == old(queue) && log == old(log) && store == old(store) && totals == old(totals)
      ensures running == old(running) && shutDown == old(shutDown) && workers == old(workers)
    {
      if !running || queue == [] {
        return false;
      }
      var job := queue[0];
      queue := queue[1..];
      ProcessJob(job, env);
      return true;
    }
  }
}
