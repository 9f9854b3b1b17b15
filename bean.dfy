/** model/bean/ConversionJob.java: the job record the older business layer passes around. */
module Bean {
  import opened Wrappers
  import opened Text

  /** Every field of the bean; None is a null reference, timestamps are epoch milliseconds. */
  datatype BeanJob = BeanJob(
    jobId: Int32, videoId: Int32, userId: Int32,
    outputFormat: Option<string>, status: Option<string>, progress: Int32,
    outputPath: Option<string>, errorMessage: Option<string>,
    createdAt: Option<int>, completedAt: Option<int>,
    videoFilename: Option<string>)

  const PENDING: string := "PENDING"

  /** The no-argument constructor: zeros and nulls, the status included. */
  function Blank(): (j: BeanJob)
    ensures j.status.None? && j.progress == 0 && j.jobId == 0
  {
    BeanJob(0, 0, 0, None, None, 0, None, None, None, None, None)
  }

  /** The constructor for a new job: PENDING at 0%, for the given video, owner and format. */
  function Basic(videoId: Int32, userId: Int32, outputFormat: Option<string>): (j: BeanJob)
    ensures j.status == Some(PENDING) && j.progress == 0
    ensures j.videoId == videoId && j.userId == userId && j.outputFormat == outputFormat
    ensures j.jobId == 0 && j.outputPath.None? && j.errorMessage.None? && j.completedAt.None?
  {
    BeanJob(0, videoId, userId, outputFormat, Some(PENDING), 0, None, None, None, None, None)
  }

  /** The ten-argument constructor: every argument stored unchanged; no display name yet. */
  function Full(jobId: Int32, videoId: Int32, userId: Int32, outputFormat: Option<string>,
                status: Option<string>, progress: Int32, outputPath: Option<string>,
                errorMessage: Option<string>, createdAt: Option<int>, completedAt: Option<int>): (j: BeanJob)
    ensures j.jobId == jobId && j.videoId == videoId && j.userId == userId
    ensures j.outputFormat == outputFormat && j.status == status && j.progress == progress
    ensures j.outputPath == outputPath && j.errorMessage == errorMessage
    ensures j.createdAt == createdAt && j.completedAt == completedAt && j.videoFilename.None?
  {
    BeanJob(jobId, videoId, userId, outputFormat, status, progress, outputPath,
            errorMessage, createdAt, completedAt, None)
  }

  /**
   * getStatusBadgeClass: the Bootstrap class for the status; None where the switch on a null
   * status throws.
   */
  function StatusBadgeClass(j: BeanJob): (r: Option<string>)
    ensures r.None? <==> j.status.None?
  {
    match j.status
    case None => None
    case Some(s) =>
      Some(match s
           case "COMPLETED" => "bg-success"
           case "PROCESSING" => "bg-primary"
           case "PENDING" => "bg-warning"
           case "FAILED" => "bg-danger"
           case _ => "bg-secondary")
  }

  predicate IsKnownStatus(s: string)
  {
    s == "COMPLETED" || s == "PROCESSING" || s == "PENDING" || s == "FAILED"
  }

  /**
   * The badge tells the four statuses apart and gives "bg-secondary" to every other string:
   * two jobs with known statuses get the same badge exactly when their statuses are equal.
   */
  lemma BadgeClassifies(a: BeanJob, b: BeanJob)
    requires a.status.Some? && b.status.Some?
    ensures StatusBadgeClass(a) == Some("bg-secondary") <==> !IsKnownStatus(a.status.value)
    ensures IsKnownStatus(a.status.value) && IsKnownStatus(b.status.value) ==>
              (StatusBadgeClass(a) == StatusBadgeClass(b) <==> a.status == b.status)
  {
  }

  /** A new job shows the PENDING badge; a job from the no-argument constructor has none. */
  lemma NewJobBadges(videoId: Int32, userId: Int32, outputFormat: Option<string>)
    ensures StatusBadgeClass(Basic(videoId, userId, outputFormat)) == Some("bg-warning")
    ensures StatusBadgeClass(Blank()).None?
  {
  }
}
