/** model/ConversionJob.java: the job record the conversion service works on. */
module Job {
  import opened Wrappers
  import opened Text
  import opened Settings

  const DEFAULT_MAX_RETRIES: Int32 := 3

  datatype JobStatus = PENDING | PROCESSING | COMPLETED | FAILED

  /** `JobStatus.name()` */
  function StatusName(s: JobStatus): string
  {
    match s
    case PENDING => "PENDING"
    case PROCESSING => "PROCESSING"
    case COMPLETED => "COMPLETED"
    case FAILED => "FAILED"
  }

  /** `JobStatus.valueOf(name.toUpperCase())`: None where valueOf throws. */
  function StatusFromName(name: string): (r: Option<JobStatus>)
    ensures r.Some? ==> StatusName(r.value) == ToUpper(name)
    ensures r.None? ==> forall s: JobStatus :: StatusName(s) != ToUpper(name)
  {
    match ToUpper(name)
    case "PENDING" => Some(PENDING)
    case "PROCESSING" => Some(PROCESSING)
    case "COMPLETED" => Some(COMPLETED)
    case "FAILED" => Some(FAILED)
    case _ => None
  }

  /** A status name parses back to the same status, in any letter case. */
  lemma StatusNameRoundTrip(s: JobStatus)
    ensures StatusFromName(StatusName(s)) == Some(s)
    ensures StatusFromName(ToLower(StatusName(s))) == Some(s)
  {
    var n := StatusName(s);
    assert ToUpper(n) == n;
    assert ToUpper(ToLower(n)) == n;
  }

  /**
   * The row the job store holds for a job: every field of ConversionJob, with timestamps
   * as epoch milliseconds and None for null.
   */
  datatype JobRecord = JobRecord(
    jobId: Int32, videoId: Int32, userId: Int32,
    status: Option<JobStatus>, progress: Int32, priority: Int32,
    settings: Params,
    outputFilename: Option<string>, outputPath: Option<string>, outputSize: Option<int>,
    createdAt: Option<int>, startedAt: Option<int>, completedAt: Option<int>,
    estimatedTime: Option<Int32>, errorMessage: Option<string>,
    retryCount: Int32, maxRetries: Int32)

  /** `Math.max(0, Math.min(100, p))` */
  function ClampProgress(p: int): (r: Int32)
    ensures 0 <= r <= 100
    ensures 0 <= p <= 100 ==> r == p
    ensures p < 0 ==> r == 0
    ensures p > 100 ==> r == 100
  {
    if p < 0 then 0 else if p > 100 then 100 else p
  }

  /** canRetry, read off the job's fields: FAILED with retries left. */
  predicate Retryable(r: JobRecord)
  {
    r.status == Some(FAILED) && r.retryCount < r.maxRetries
  }

  class ConversionJob {
    var jobId: Int32
    var videoId: Int32
    var userId: Int32
    var status: Option<JobStatus>
    var progress: Int32
    var priority: Int32
    var outputFormat: Option<string>
    var outputResolution: Option<string>
    var quality: Option<string>
    var videoBitrate: Option<string>
    var audioBitrate: Option<string>
    var codec: Option<string>
    var frameRate: Int32
    var startTime: Option<Int32>
    var endTime: Option<Int32>
    var outputFilename: Option<string>
    var outputPath: Option<string>
    var outputSize: Option<int>
    var createdAt: Option<int>
    var startedAt: Option<int>
    var completedAt: Option<int>
    var estimatedTime: Option<Int32>
    var errorMessage: Option<string>
    var retryCount: Int32
    var maxRetries: Int32

    /** The conversion parameters held by the job. */
    function SettingsValue(): Params
      reads this
    {
      Params(outputFormat, outputResolution, quality, videoBitrate, audioBitrate,
             codec, frameRate, startTime, endTime)
    }

    /** The job as the store sees it. */
    function Record(): JobRecord
      reads this
    {
      JobRecord(jobId, videoId, userId, status, progress, priority, SettingsValue(),
                outputFilename, outputPath, outputSize, createdAt, startedAt, completedAt,
                estimatedTime, errorMessage, retryCount, maxRetries)
    }

    /** The default constructor's state, with the given settings and owner. */
    static function Initial(videoId: Int32, userId: Int32, p: Params): JobRecord
    {
      JobRecord(0, videoId, userId, Some(PENDING), 0, 0, p, None, None, None,
                None, None, None, None, None, 0, DEFAULT_MAX_RETRIES)
    }

    /**
     * The default constructor: PENDING, progress 0, priority 0, codec libx264, 30 fps,
     * no retries used out of 3; every other field zero or null.
     */
    constructor ()
      ensures Record() == Initial(0, 0, Params(None, None, None, None, None,
                                               Some(DEFAULT_CODEC), DEFAULT_FRAME_RATE, None, None))
      ensures status == Some(PENDING) && progress == 0 && retryCount == 0 && maxRetries == 3
    {
      jobId, videoId, userId := 0, 0, 0;
      status, progress, priority := Some(PENDING), 0, 0;
      outputFormat, outputResolution, quality := None, None, None;
      videoBitrate, audioBitrate, codec := None, None, Some(DEFAULT_CODEC);
      frameRate, startTime, endTime := DEFAULT_FRAME_RATE, None, None;
      outputFilename, outputPath, outputSize := None, None, None;
      createdAt, startedAt, completedAt := None, None, None;
      estimatedTime, errorMessage := None, None;
      retryCount, maxRetries := 0, DEFAULT_MAX_RETRIES;
    }

    /** The constructor with basic info: the defaults plus owner, video and output format. */
    constructor Basic(videoId: Int32, userId: Int32, outputFormat: Option<string>)
      ensures Record() == Initial(videoId, userId, Params(outputFormat, None, None, None, None,
                                                          Some(DEFAULT_CODEC), DEFAULT_FRAME_RATE, None, None))
    {
      this.jobId, this.videoId, this.userId := 0, videoId, userId;
      this.status, this.progress, this.priority := Some(PENDING), 0, 0;
      this.outputFormat, this.outputResolution, this.quality := outputFormat, None, None;
      this.videoBitrate, this.audioBitrate, this.codec := None, None, Some(DEFAULT_CODEC);
      this.frameRate, this.startTime, this.endTime := DEFAULT_FRAME_RATE, None, None;
      this.outputFilename, this.outputPath, this.outputSize := None, None, None;
      this.createdAt, this.startedAt, this.completedAt := None, None, None;
      this.estimatedTime, this.errorMessage := None, None;
      this.retryCount, this.maxRetries := 0, DEFAULT_MAX_RETRIES;
    }

    /**
     * The constructor with settings: the defaults, then all nine conversion parameters
     * copied from `settings` (so the codec and frame-rate defaults are overwritten).
     */
    constructor WithSettings(videoId: Int32, userId: Int32, settings: ConversionSettings)
      ensures Record() == Initial(videoId, userId, settings.Value())
      ensures SettingsValue() == settings.Value()
    {
      this.jobId, this.videoId, this.userId := 0, videoId, userId;
      this.status, this.progress, this.priority := Some(PENDING), 0, 0;
      this.outputFormat, this.outputResolution, this.quality :=
        settings.outputFormat, settings.outputResolution, settings.quality;
      this.videoBitrate, this.audioBitrate, this.codec :=
        settings.videoBitrate, settings.audioBitrate, settings.codec;
      this.frameRate, this.startTime, this.endTime :=
        settings.frameRate, settings.startTime, settings.endTime;
      this.outputFilename, this.outputPath, this.outputSize := None, None, None;
      this.createdAt, this.startedAt, this.completedAt := None, None, None;
      this.estimatedTime, this.errorMessage := None, None;
      this.retryCount, this.maxRetries := 0, DEFAULT_MAX_RETRIES;
    }

    /** setProgress: stores the argument clamped to 0..100; nothing else changes. */
    method SetProgress(p: int)
      modifies this
      ensures Record() == old(Record()).(progress := ClampProgress(p))
      ensures 0 <= progress <= 100
    {
      progress := ClampProgress(p);
    }

    /** getStatusString: the status name, "PENDING" for a null status. */
    function StatusString(): (s: string)
      reads this
      ensures status.None? ==> s == "PENDING"
      ensures status.Some? ==> StatusFromName(s) == status
    {
      StatusNameRoundTrip(if status.Some? then status.value else PENDING);
      if status.Some? then StatusName(status.value) else "PENDING"
    }

    /**
     * setStatusFromString: case-insensitive; `ok` is false, and nothing changes, where
     * valueOf throws (an unknown name) or the argument is null.
     */
    method SetStatusFromString(name: Option<string>) returns (ok: bool)
      modifies this
      ensures ok <==> name.Some? && StatusFromName(name.value).Some?
      ensures ok ==> Record() == old(Record()).(status := StatusFromName(name.value))
      ensures !ok ==> Record() == old(Record())
    {
      if name.None? {
        return false;
      }
      var s := StatusFromName(name.value);
      if s.None? {
        return false;
      }
      status := s;
      return true;
    }

    /** canRetry: FAILED with retries left. */
    predicate CanRetry()
      reads this
    {
      Retryable(Record())
    }

    /** incrementRetryCount: `retryCount++` in int arithmetic; nothing else changes. */
    method IncrementRetryCount()
      modifies this
      ensures Record() == old(Record()).(retryCount := Wrap32(old(retryCount) + 1))
      ensures old(retryCount) < INT_MAX ==> retryCount == old(retryCount) + 1
    {
      retryCount := Wrap32(retryCount + 1);
    }

    /** isTrimEnabled: either trim bound is set. */
    predicate IsTrimEnabled()
      reads this
    {
      startTime.Some? || endTime.Some?
    }

    /** getConversionSettings: a fresh settings object holding the job's nine parameters. */
    method GetConversionSettings() returns (s: ConversionSettings)
      ensures fresh(s)
      ensures s.Value() == SettingsValue()
    {
      s := new ConversionSettings();
      s.Assign(SettingsValue());
    }

    /** getProcessingTimeSeconds: whole seconds between start and completion, truncated toward zero. */
    function ProcessingTimeSeconds(): (r: Option<int>)
      reads this
      ensures r.Some? <==> startedAt.Some? && completedAt.Some?
      ensures r.Some? && startedAt.value <= completedAt.value ==>
                0 <= r.value && r.value * 1000 <= completedAt.value - startedAt.value < (r.value + 1) * 1000
      ensures r.Some? && startedAt.value > completedAt.value ==>
                r.value <= 0 && (r.value - 1) * 1000 < completedAt.value - startedAt.value <= r.value * 1000
    {
      if startedAt.Some? && completedAt.Some?
      then Some(TruncDiv(completedAt.value - startedAt.value, 1000))
      else None
    }
  }

  /** canRetry holds exactly for a FAILED job that has used fewer retries than allowed. */
  lemma CanRetryCharacterized(j: ConversionJob)
    ensures j.CanRetry() <==> j.status == Some(FAILED) && j.retryCount < j.maxRetries
  {
  }
}
