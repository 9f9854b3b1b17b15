# Video converter: conversion-job pipeline in Dafny

This project models the core of a Java web application that converts uploaded videos with
ffmpeg. It also covers the small deterministic helpers around that core. It models:

- the conversion job (`model/ConversionJob.java`) and its settings (`model/ConversionSettings.java`),
  as classes whose methods update fields;
- the job service (`service/ConversionService.java`): a running flag, an unbounded FIFO queue and
  a job store (a map from job id to job row) with a log of the writes made to it. Workers are
  sequential `ProcessOne` steps;
- the older business object (`model/bo/ConversionBO.java`), with the same shape;
- the ffmpeg wrapper (`util/FFmpegWrapper.java`):
  - the argument-list builder and the codec tables;
  - the `time=`/`Duration:` stamp parser and the progress percentage;
  - the stall detector and the final success decision, over an abstract trace of
    `(line, clock)` events and an exit result;
  - the ffprobe `key=value` parser and the banner parser;
- the status badge of the bean job, the duration and byte-size display of `Video`;
- the password rules (`util/PasswordUtil.java`), the account checks (`model/bo/UserBO.java`), the
  access filter, and the upload servlet's helpers and check order;
- the pure helpers of `webapp/js/script.js`.

Java `null` is `None` and an exception is an error value. Clocks, random ids, the database and
the BCrypt library are parameters. Strings are sequences of `char`, and `int` fields are
`Int32` with Java's wrap-around written out where it matters.

Modules: `Wrappers`, `Text` (Java/JavaScript string helpers), `Clock` (reading `HH:MM:SS`
back), `Settings`, `Job`, `Stamps`, `Codecs`, `Command`, `Probe`, `Supervisor`, `Paths`,
`Service`, `Bean`, `Bo`, `Video`, `Passwords`, `Users`, `Access`, `Upload`, `Script`.

## Model


| member | source | states |
|---|---|---|
| Job.StatusNameRoundTrip | src/main/java/com/videoconverter/model/ConversionJob.java:121-127 | every status name reads back as that status, in upper or lower case |
| Job.ClampProgress | src/main/java/com/videoconverter/model/ConversionJob.java:133-135 | the stored progress is within [0,100], equals the argument when it is in range, 0 below, 100 above |
| Job.ConversionJob.constructor | src/main/java/com/videoconverter/model/ConversionJob.java:54-62 | a new job is PENDING, progress 0, retry count 0, max retries 3, codec libx264, frame rate 30 |
| Job.ConversionJob.Basic | src/main/java/com/videoconverter/model/ConversionJob.java:65-71 | the three-argument job is the initial record with the ids and format given |
| Job.ConversionJob.WithSettings | src/main/java/com/videoconverter/model/ConversionJob.java:73-86 | the job built from settings holds exactly the settings' nine values |
| Job.ConversionJob.SetProgress | src/main/java/com/videoconverter/model/ConversionJob.java:133-135 | only progress changes, to the clamped value, so it stays within [0,100] |
| Job.ConversionJob.StatusString | src/main/java/com/videoconverter/model/ConversionJob.java:121-123 | "PENDING" for a null status; otherwise a name that parses back to the status |
| Job.ConversionJob.SetStatusFromString | src/main/java/com/videoconverter/model/ConversionJob.java:125-127 | succeeds exactly for a known name in any case, setting only the status; otherwise nothing changes |
| Job.ConversionJob.IncrementRetryCount | src/main/java/com/videoconverter/model/ConversionJob.java:309-311 | only the retry count changes, by one (with int wrap-around) |
| Job.ConversionJob.GetConversionSettings | src/main/java/com/videoconverter/model/ConversionJob.java:323-335 | a fresh settings object with exactly the job's nine settings values (the round trip with WithSettings) |
| Job.ConversionJob.ProcessingTimeSeconds | src/main/java/com/videoconverter/model/ConversionJob.java:340-345 | present exactly when both times are; the elapsed milliseconds divided by 1000, truncated toward zero |
| Job.CanRetryCharacterized | src/main/java/com/videoconverter/model/ConversionJob.java:302-304 | canRetry holds if and only if the status is FAILED and the retry count is below the maximum |
| Settings.ApplyPreset | src/main/java/com/videoconverter/model/ConversionSettings.java:141-159 | fails on a null quality; otherwise sets only the two bitrates, to the quality's pair |
| Settings.ApplyPresetIdempotent | src/main/java/com/videoconverter/model/ConversionSettings.java:141-159 | applying the preset twice is the same as once |
| Settings.PresetBitratesCaseInsensitive | src/main/java/com/videoconverter/model/ConversionSettings.java:142-158 | the quality name's case does not matter; the pair is high, medium or low, unknown names getting medium |
| Settings.PresetBitrates | src/main/java/com/videoconverter/model/ConversionSettings.java:141-159 | one of the three bitrate pairs; the high pair exactly for "high" and the low pair exactly for "low", in any case |
| Settings.ConversionSettings.constructor | src/main/java/com/videoconverter/model/ConversionSettings.java:19-24 | quality medium, codec libx264, frame rate 30, everything else null |
| Settings.ConversionSettings.Basic | src/main/java/com/videoconverter/model/ConversionSettings.java:26-32 | the three arguments stored, codec libx264, frame rate 30 |
| Settings.ConversionSettings.Full | src/main/java/com/videoconverter/model/ConversionSettings.java:34-46 | every argument stored unchanged |
| Settings.ConversionSettings.Assign | src/main/java/com/videoconverter/model/ConversionSettings.java:53-119 | after the nine setters the object holds exactly the given value |
| Settings.ConversionSettings.ApplyQualityPreset | src/main/java/com/videoconverter/model/ConversionSettings.java:141-159 | throws on a null quality and changes nothing; otherwise the new value is ApplyPreset of the old |
| Settings.ConversionSettings.TrimDuration | src/main/java/com/videoconverter/model/ConversionSettings.java:131-136 | present exactly when both bounds are set; end minus start for non-negative bounds |
| Settings.ValidTrimIsPositive | src/main/java/com/videoconverter/model/ConversionSettings.java:164-175 | valid settings with a non-negative start have a positive trim duration |
| Settings.ValidTrimCanOverflow | src/main/java/com/videoconverter/model/ConversionSettings.java:131-136 | start -2 and end INT_MAX pass isValid, yet the int subtraction gives INT_MIN + 1 |
| Settings.DefaultsValidOnceFormatSet | src/main/java/com/videoconverter/model/ConversionSettings.java:164-175 | default settings become valid once a non-blank format is set, with no trim |
| Stamps.FindStampFrom | src/main/java/com/videoconverter/util/FFmpegWrapper.java:26-27 | the leftmost index from `from` where the stamp pattern matches, or -1 when none does |
| Stamps.ParseStamp | src/main/java/com/videoconverter/util/FFmpegWrapper.java:225-231 | None exactly when the pattern occurs nowhere in the line |
| Stamps.ParseStampOfFormat | src/main/java/com/videoconverter/util/FFmpegWrapper.java:226-233 | a printed stamp reads back as h*3600 + m*60 + s, whatever the hundredths and what follows |
| Stamps.Percent | src/main/java/com/videoconverter/util/FFmpegWrapper.java:234 | within [0,100]; 100 exactly when the total is reached; otherwise the floor of processed*100/total |
| Stamps.PercentMonotonic | src/main/java/com/videoconverter/util/FFmpegWrapper.java:234 | more processed time never lowers the percentage |
| Supervisor.Reap | src/main/java/com/videoconverter/util/FFmpegWrapper.java:304-308 | after the finally block no process is left running |
| Supervisor.Step | src/main/java/com/videoconverter/util/FFmpegWrapper.java:221-253 | at most one progress callback per line and none without a listener; the timer moves to the line's clock exactly when the percentage changes; the line stalls the loop exactly when it comes more than five minutes after the timer |
| Supervisor.Scan | src/main/java/com/videoconverter/util/FFmpegWrapper.java:220-254 | earlier callbacks are kept, at most one is added per line, none without a listener |
| Supervisor.Settle | src/main/java/com/videoconverter/util/FFmpegWrapper.java:246-280 | success exactly without a stall and with exit code 0; exactly one more callback for a listener, onComplete exactly on success; no process left running |
| Supervisor.Supervise | src/main/java/com/videoconverter/util/FFmpegWrapper.java:161-310 | no callbacks without a listener; a missing input is reported alone; no process left running |
| Supervisor.FollowProgress | src/main/java/com/videoconverter/util/FFmpegWrapper.java:216-255 | the reading loop computes the same watch state as the line-by-line specification Scan |
| Supervisor.ScanPercentsInRange | src/main/java/com/videoconverter/util/FFmpegWrapper.java:224-245 | every reported percentage is within [0,100] |
| Supervisor.SupervisePercentsInRange | src/main/java/com/videoconverter/util/FFmpegWrapper.java:161-310 | no run reports a percentage outside [0,100] |
| Supervisor.UnwatchedRunHasDeadline | src/main/java/com/videoconverter/util/FFmpegWrapper.java:216-254 | without a listener or duration the run stops exactly when some line arrives more than 300000 ms after the start |
| Supervisor.SteadyRunNeverStalls | src/main/java/com/videoconverter/util/FFmpegWrapper.java:234-254 | a run whose every line changes the percentage never times out |
| Supervisor.SuperviseOutcome | src/main/java/com/videoconverter/util/FFmpegWrapper.java:161-310 | success exactly for an existing input, a started process, no stall and exit code 0; no process left running; the last callback is onComplete exactly on success |
| Supervisor.ConvertVideo | src/main/java/com/videoconverter/util/FFmpegWrapper.java:161-310 | the outcome is the specification Supervise over the built command |
| Supervisor.FinishRun | src/main/java/com/videoconverter/util/FFmpegWrapper.java:247-280 | the stall verdict, the time-limited wait and the exit code are handled as the specification Settle says |
| Codecs.DefaultVideoCodec | src/main/java/com/videoconverter/util/FFmpegWrapper.java:637-649 | webm gets libvpx-vp9, avi mpeg4, flv flv1, everything else libx264 |
| Codecs.VideoCodecForFormat | src/main/java/com/videoconverter/util/FFmpegWrapper.java:623-650 | a usable preference is used; any codec other than the container default is a non-empty preference compatible with the container |
| Codecs.AudioCodecForFormat | src/main/java/com/videoconverter/util/FFmpegWrapper.java:658-675 | webm gets libopus, avi and flv mp3, everything else aac |
| Codecs.ChosenCodecIsCompatible | src/main/java/com/videoconverter/util/FFmpegWrapper.java:684-699 | the chosen video codec is always compatible with the format |
| Codecs.WebmRejectsX264 | src/main/java/com/videoconverter/util/FFmpegWrapper.java:684-699 | libx264 is refused for webm, libvpx accepted whatever the case of the format |
| Command.AddOptIf | src/main/java/com/videoconverter/util/FFmpegWrapper.java:549-585 | an optional option is appended exactly when its condition holds |
| Command.EncodingEntries | src/main/java/com/videoconverter/util/FFmpegWrapper.java:519-546 | the codec part holds the codec, the x264 or vp9 tuning only for that encoder family, the threads and the audio codec |
| Command.RatesEntries | src/main/java/com/videoconverter/util/FFmpegWrapper.java:548-574 | bitrates only when non-empty, the buffer size always, scaling only for a resolution, frame rate only when positive |
| Command.TrimEntries | src/main/java/com/videoconverter/util/FFmpegWrapper.java:576-585 | -ss and -to only for bounds that are set and positive |
| Command.ContainerEntries | src/main/java/com/videoconverter/util/FFmpegWrapper.java:587-601 | the format, fast start only for mp4 and mov, the muxing queue size |
| Command.LayoutShape | src/main/java/com/videoconverter/util/FFmpegWrapper.java:510-614 | the command starts `ffmpeg -i input` and ends `-y -progress pipe:1 output` |
| Command.LayoutOptions | src/main/java/com/videoconverter/util/FFmpegWrapper.java:510-614 | an option and value appear exactly when the independent table OptionValue gives that value |
| Command.BuildCommand | src/main/java/com/videoconverter/util/FFmpegWrapper.java:510-614 | None for a null format (the Java code throws); otherwise the rendering of the layout |
| Probe.DimensionsReadBack | src/main/java/com/videoconverter/util/FFmpegWrapper.java:96-101 | "WxH" splits back into the two numbers |
| Probe.Resolution | src/main/java/com/videoconverter/util/FFmpegWrapper.java:96-101 | the stored string, or "WxH" when none is stored and both sides are positive |
| Probe.Extension | src/main/java/com/videoconverter/util/FFmpegWrapper.java:411-416 | present exactly when the last dot is past index 0; the dot-free text after it |
| Probe.ReadProperties | src/main/java/com/videoconverter/util/FFmpegWrapper.java:351-361 | the reading loop builds the specification Properties map |
| Probe.PropertyKeys | src/main/java/com/videoconverter/util/FFmpegWrapper.java:355-360 | a key is in the map exactly when some line with '=' has it |
| Probe.LastPropertyWins | src/main/java/com/videoconverter/util/FFmpegWrapper.java:358 | a later line with the same key overwrites an earlier one |
| Probe.InfoOfProperties | src/main/java/com/videoconverter/util/FFmpegWrapper.java:369-416 | fails exactly on a number that does not parse; the resolution is set exactly for positive sizes; the format is the extension |
| Probe.GetVideoInfo | src/main/java/com/videoconverter/util/FFmpegWrapper.java:318-426 | the result is the specification ProbeInfo |
| Probe.ProbeInfo | src/main/java/com/videoconverter/util/FFmpegWrapper.java:318-426 | info only from an existing file whose probe exited with code 0 |
| Probe.ResolutionBound | src/main/java/com/videoconverter/util/FFmpegWrapper.java:28 | a banner resolution match has sides below 10000 |
| Probe.BannerKeepsConsistent | src/main/java/com/videoconverter/util/FFmpegWrapper.java:460-481 | the banner parser keeps the resolution equal to "WxH" of the sizes |
| Probe.GetVideoInfoFFmpeg | src/main/java/com/videoconverter/util/FFmpegWrapper.java:434-500 | info exactly when the file exists and ffmpeg started; then the banner reading with the file's extension |
| Paths.Parent | src/main/java/com/videoconverter/service/ConversionService.java:380-381 | a proper prefix of the path; None exactly without a separator or for the root |
| Paths.StripExtension | src/main/java/com/videoconverter/service/ConversionService.java:404-407 | the name up to its last dot when that dot is past index 0, else the whole name |
| Paths.StripThenExtension | src/main/java/com/videoconverter/service/ConversionService.java:404-413 | base name, dot and extension put the name back together |
| Paths.StemThenFormat | src/main/java/com/videoconverter/service/ConversionService.java:404-413 | a non-empty stem, a dot and a dot-free format read back: the format is the extension, the stem the base name |
| Paths.ParentOfChild | src/main/java/com/videoconverter/service/ConversionService.java:380-387 | the parent of dir/name is dir |
| Service.ProgressWriteTouchesOnlyProgress | src/main/java/com/videoconverter/service/ConversionService.java:293-300 | a progress write changes only that job's progress, to the clamped value |
| Service.OutputBesideUploads | src/main/java/com/videoconverter/service/ConversionService.java:379-393 | the output directory sits in the input's grandparent |
| Service.OutputDirectory | src/main/java/com/videoconverter/service/ConversionService.java:379-393 | fails exactly when the input path has no parent |
| Service.OutputFilename | src/main/java/com/videoconverter/service/ConversionService.java:402-414 | present exactly when the original name is |
| Service.Prepare | src/main/java/com/videoconverter/service/ConversionService.java:261-278 | succeeds exactly when the video row has a path to an existing file with a parent and the original name is set; the output path ends with "/" and the output name |
| Service.Process | src/main/java/com/videoconverter/service/ConversionService.java:252-371 | the last write saves the job as left; the owner is credited exactly when it is COMPLETED and it is re-submitted exactly when it is PENDING |
| Service.OutputFilenameReadsBack | src/main/java/com/videoconverter/service/ConversionService.java:402-414 | the output name has the format as extension and base + "_converted_" + timestamp as its base |
| Service.ProgressWrites | src/main/java/com/videoconverter/service/ConversionService.java:287-313 | at most one write per progress callback, each a progress write for this job |
| Service.ThrowsWhileProcessing | src/main/java/com/videoconverter/service/ConversionService.java:255-346 | whenever the try block throws, the job is PROCESSING, so canRetry is false |
| Service.NeverRetried | src/main/java/com/videoconverter/service/ConversionService.java:339-370 | nothing is re-queued, the retry count is unchanged, the job ends COMPLETED or FAILED with both times set |
| Service.WritesInOrder | src/main/java/com/videoconverter/service/ConversionService.java:255-364 | first a PROCESSING save with the start time, then only progress writes, then one final save |
| Service.CompletesExactlyWhen | src/main/java/com/videoconverter/service/ConversionService.java:262-337 | COMPLETED exactly when the record and file exist and the converter succeeds; then progress 100 and the user credited |
| Service.FailureMessages | src/main/java/com/videoconverter/service/ConversionService.java:262-341 | each failure stores "Conversion failed: " + its message: missing video, missing file, converter failure |
| Service.ConversionService.constructor | src/main/java/com/videoconverter/service/ConversionService.java:43-51 | stopped, no workers, empty queue, the store given |
| Service.ConversionService.Start | src/main/java/com/videoconverter/service/ConversionService.java:74-90 | no change while running; otherwise running, refused exactly after a shutdown, with 3 workers when not refused |
| Service.ConversionService.Stop | src/main/java/com/videoconverter/service/ConversionService.java:95-125 | not running afterwards; the executor shut down only if it was running |
| Service.ConversionService.SubmitJob | src/main/java/com/videoconverter/service/ConversionService.java:133-166 | false with nothing queued when stopped or for null; otherwise a null status becomes PENDING and the job is appended |
| Service.ConversionService.LoadPendingJobs | src/main/java/com/videoconverter/service/ConversionService.java:192-210 | the count queued is at most 100 and at most the number loaded, and those jobs are appended in order |
| Service.ConversionService.ReplayProgress | src/main/java/com/videoconverter/service/ConversionService.java:293-300 | the job's progress and the store follow the progress writes, in order |
| Service.ConversionService.TryConvertJob | src/main/java/com/videoconverter/service/ConversionService.java:255-338 | the try block's state and writes are the specification TryConvert |
| Service.ConversionService.Complete | src/main/java/com/videoconverter/service/ConversionService.java:315-334 | the completed job is saved and the user credited |
| Service.ConversionService.Fail | src/main/java/com/videoconverter/service/ConversionService.java:359-369 | the failed job is saved, nothing credited |
| Service.ConversionService.ProcessJob | src/main/java/com/videoconverter/service/ConversionService.java:252-371 | job, log and store are those of the specification Process; the queue is unchanged |
| Service.ConversionService.ProcessOne | src/main/java/com/videoconverter/service/ConversionService.java:223-245 | one worker step takes the head of the queue exactly when running and non-empty; the job, log, store and per-user totals then follow the specification Process (a credit exactly on completion), and nothing changes otherwise |
| Bean.Blank | src/main/java/com/videoconverter/model/bean/ConversionJob.java:21-22 | the no-argument job has a null status and progress 0 |
| Bean.Basic | src/main/java/com/videoconverter/model/bean/ConversionJob.java:24-30 | status "PENDING", progress 0, the ids and format given |
| Bean.Full | src/main/java/com/videoconverter/model/bean/ConversionJob.java:32-45 | every argument stored unchanged |
| Bean.StatusBadgeClass | src/main/java/com/videoconverter/model/bean/ConversionJob.java:136-144 | fails exactly on a null status |
| Bean.BadgeClassifies | src/main/java/com/videoconverter/model/bean/ConversionJob.java:136-144 | grey exactly for unknown statuses; known statuses get distinct colours |
| Bean.NewJobBadges | src/main/java/com/videoconverter/model/bean/ConversionJob.java:21-30 | a new job is bg-warning; the no-argument job makes the badge fail |
| Bo.OutputFilenameReadsBack | src/main/java/com/videoconverter/model/bo/ConversionBO.java:202-206 | the output name has the format as extension and base + "_converted" as base |
| Bo.OutputFilename | src/main/java/com/videoconverter/model/bo/ConversionBO.java:202-206 | starts with the original name without its extension |
| Bo.OutputDirectory | src/main/java/com/videoconverter/model/bo/ConversionBO.java:173 | ends in the "/converted" directory |
| Bo.Prepare | src/main/java/com/videoconverter/model/bo/ConversionBO.java:159-179 | ready exactly when the video row has a path to an existing file, a file name and a usable output directory; the input is that file |
| Bo.Process | src/main/java/com/videoconverter/model/bo/ConversionBO.java:153-200 | PROCESSING at 0% first; one write per progress callback besides that and the final one |
| Bo.ProgressWrites | src/main/java/com/videoconverter/model/bo/ConversionBO.java:183-188 | one PROCESSING write per progress callback, in order |
| Bo.ProcessWritesShape | src/main/java/com/videoconverter/model/bo/ConversionBO.java:153-200 | first PROCESSING with progress 0, then PROCESSING writes, then exactly one terminal write, all for this job |
| Bo.CompletesOnlyOnSuccess | src/main/java/com/videoconverter/model/bo/ConversionBO.java:190-194 | completed exactly when set-up succeeds, the converter returns true and the output exists |
| Bo.FailureMessages | src/main/java/com/videoconverter/model/bo/ConversionBO.java:154-198 | a failed final write carries one of the fixed messages, null, or the message of the exception the converter threw |
| Bo.OutputBesideInput | src/main/java/com/videoconverter/model/bo/ConversionBO.java:172-179 | the output goes to the input's parent + "/converted/" + the output name |
| Bo.ConversionBO.constructor | src/main/java/com/videoconverter/model/bo/ConversionBO.java:33-39 | stopped, no workers, empty queue |
| Bo.ConversionBO.StartWorkers | src/main/java/com/videoconverter/model/bo/ConversionBO.java:51-68 | no change while running; otherwise running with the pending jobs appended in order, refused exactly after a shutdown, 2 workers when not refused |
| Bo.ConversionBO.StopWorkers | src/main/java/com/videoconverter/model/bo/ConversionBO.java:73-77 | not running, executor shut down, nothing else changes |
| Bo.ConversionBO.SubmitJob | src/main/java/com/videoconverter/model/bo/ConversionBO.java:82-99 | null and nothing queued when a record cannot be created; otherwise a PENDING job appended, stored and returned; the video row stays even when the job insert fails |
| Bo.ConversionBO.DeleteJob | src/main/java/com/videoconverter/model/bo/ConversionBO.java:111-126 | false with no change for a missing or foreign job; otherwise the row and its output file go |
| Bo.ConversionBO.ReportProgress | src/main/java/com/videoconverter/model/bo/ConversionBO.java:182-188 | the log and rows follow the progress writes |
| Bo.ConversionBO.ProcessJob | src/main/java/com/videoconverter/model/bo/ConversionBO.java:153-200 | log and rows are those of the specification Process |
| Bo.ConversionBO.ProcessOne | src/main/java/com/videoconverter/model/bo/ConversionBO.java:141-151 | one worker step takes the head of the queue exactly when running and non-empty; the log and the rows then follow the writes of the specification Process, and nothing changes otherwise |
| Video.DurationFormatted | src/main/java/com/videoconverter/model/Video.java:149-162 | at least "MM:SS" long |
| Video.DurationReadsBack | src/main/java/com/videoconverter/model/Video.java:149-162 | the text reads back to the duration (0 for d <= 0), with three fields exactly from one hour on and minutes and seconds below 60 |
| Video.FileSizeInBytes | src/main/java/com/videoconverter/model/Video.java:135-136 | present exactly below 1024, ending in " B" |
| Video.FileSizeReadsBack | src/main/java/com/videoconverter/model/Video.java:135-136 | the number part parses back to the size |
| Passwords.IsStrongPassword | src/main/java/com/videoconverter/util/PasswordUtil.java:71-101 | the one-pass loop agrees with Strong: eight characters and three of the four kinds |
| Passwords.ClassesInMeans | src/main/java/com/videoconverter/util/PasswordUtil.java:81-98 | a kind is counted exactly when some character is of that kind |
| Passwords.StrongExamples | src/main/java/com/videoconverter/util/PasswordUtil.java:71-101 | "Abcdef12" is strong; a short one or one of a single kind is not |
| Passwords.RehashReadsCost | src/main/java/com/videoconverter/util/PasswordUtil.java:52-69 | for a "$v$cc$rest" hash, a rehash is needed exactly when the cost is below 10 |
| Passwords.NeedsRehash | src/main/java/com/videoconverter/util/PasswordUtil.java:52-69 | true for a null or blank hash; a hash is kept only when its third part reads as a cost of at least 10 |
| Passwords.HashPassword | src/main/java/com/videoconverter/util/PasswordUtil.java:10-24 | refuses exactly a null or blank password, before the library |
| Passwords.CheckPassword | src/main/java/com/videoconverter/util/PasswordUtil.java:26-50 | refuses a null or blank password, then a blank hash; otherwise true exactly when the library says so |
| Passwords.GuardsPrecedeLibrary | src/main/java/com/videoconverter/util/PasswordUtil.java:26-34 | the refusals do not depend on the library |
| Users.EmailMatchesPattern | src/main/java/com/videoconverter/model/bo/UserBO.java:71-73 | the computed check agrees with the pattern, both ways |
| Users.ByUsername | src/main/java/com/videoconverter/model/bo/UserBO.java:21 | the row stored under the name; nothing for null |
| Users.Register | src/main/java/com/videoconverter/model/bo/UserBO.java:37-52 | true exactly for a free name, a free address, a non-blank password and a created row, which is the only change |
| Users.TakenNameRefusedFirst | src/main/java/com/videoconverter/model/bo/UserBO.java:38-41 | a taken name is refused whatever else is given |
| Users.RegisterTwiceRefused | src/main/java/com/videoconverter/model/bo/UserBO.java:37-52 | a name cannot be registered twice |
| Users.Authenticate | src/main/java/com/videoconverter/model/bo/UserBO.java:20-32 | null for an unknown name; the stored user exactly when the password check passes |
| Users.RegisteredUserAuthenticates | src/main/java/com/videoconverter/model/bo/UserBO.java:20-52 | right after registering, the same name and password log in |
| Access.RequestPath | src/main/java/com/videoconverter/filter/AuthenticationFilter.java:33 | the URI with the context path's length cut off; None where substring throws |
| Access.Filter | src/main/java/com/videoconverter/filter/AuthenticationFilter.java:26-58 | a decision exactly when the path can be computed |
| Access.FilterDecides | src/main/java/com/videoconverter/filter/AuthenticationFilter.java:36-57 | public paths pass; redirect to login exactly without a user; 403 exactly for a non-admin on an admin path |
| Access.AdminNeverForbidden | src/main/java/com/videoconverter/filter/AuthenticationFilter.java:42-57 | a logged-in user is never redirected, an admin never refused |
| Access.PublicExamples | src/main/java/com/videoconverter/filter/AuthenticationFilter.java:63-77 | "/", "/login", "/login.jsp", a stylesheet and "/loginHelp" (a prefix match) are public; "/admin" and "/status" are not |
| Upload.SubmittedFileName | src/main/java/com/videoconverter/controller/UploadServlet.java:276-285 | None exactly without a header; never contains a quote |
| Upload.SubmittedNameReadsBack | src/main/java/com/videoconverter/controller/UploadServlet.java:276-285 | a `form-data; name=...; filename="x"` header gives back x |
| Upload.FirstFilenameFinds | src/main/java/com/videoconverter/controller/UploadServlet.java:277-282 | the first segment naming a file decides |
| Upload.FirstFilenameUnknown | src/main/java/com/videoconverter/controller/UploadServlet.java:284 | "unknown" when no segment names a file |
| Upload.Sanitize | src/main/java/com/videoconverter/controller/UploadServlet.java:299 | same length; each character kept when safe, else '_' |
| Upload.UniqueFilenameShape | src/main/java/com/videoconverter/controller/UploadServlet.java:290-303 | length grows by "_" and the timestamp; the extension is kept at the end; the base is all safe characters; the extension reads back |
| Upload.VideoFormatChecks | src/main/java/com/videoconverter/controller/UploadServlet.java:308-320 | case-insensitive; every allowed type passes, with or without parameters; null fails |
| Upload.FormSettings | src/main/java/com/videoconverter/controller/UploadServlet.java:176-216 | a non-blank format, the quality's bitrate pair, codec and frame rate defaults, the resolution as given |
| Upload.FormDefaults | src/main/java/com/videoconverter/controller/UploadServlet.java:181-190 | a blank format is mp4 and a blank quality medium |
| Upload.BadTimeIgnored | src/main/java/com/videoconverter/controller/UploadServlet.java:196-205 | a start time that does not parse is ignored |
| Upload.QueuedOnlyWhenAccepted | src/main/java/com/videoconverter/controller/UploadServlet.java:79-271 | queued exactly when logged in, with a non-empty file within 500 MB, an allowed type, a disposition header, both records created and the job accepted; the job is a new PENDING one with the form's settings, the probed duration as its estimate when positive, and its file in the uploads directory |
| Upload.EstimatedTime | src/main/java/com/videoconverter/controller/UploadServlet.java:222-224 | the probed duration when it is positive, otherwise none |
| Upload.Post | src/main/java/com/videoconverter/controller/UploadServlet.java:79-271 | the login page exactly without a user; every refusal carries one of the fixed messages or the unexpected-error prefix |
| Upload.OversizeRefusedBeforeRecords | src/main/java/com/videoconverter/controller/UploadServlet.java:119-124 | an oversized file is refused whatever the back end would do |
| Script.EscapedHasNoMarkup | src/main/webapp/js/script.js:461-471 | the escaped text holds no < > " ' |
| Script.EscapeRoundTrip | src/main/webapp/js/script.js:461-471 | decoding the escaped text gives the text back |
| Script.EscapeHtml | src/main/webapp/js/script.js:461-471 | the escaped text is never shorter than the input |
| Script.FormatDurationReadsBack | src/main/webapp/js/script.js:485-491 | a non-negative duration reads back as three fields, minutes and seconds below 60, summing to it |
| Script.FormatDuration | src/main/webapp/js/script.js:485-491 | at least "HH:MM:SS" long |
| Script.ServerNamePassesPage | src/main/webapp/js/script.js:165-176 | every name the server's check accepts passes the page's check |
| Script.PageAllowsLongerNames | src/main/webapp/js/script.js:165-176 | a 21-character name passes the page but not the server |
| Script.EmailOfParts | src/main/webapp/js/script.js:178-189 | any three plain parts joined by '@' and '.' pass |
| Script.EmailWithoutDotRefused | src/main/webapp/js/script.js:178-189 | an address without a dot after the '@' fails |
| Script.EmailWithTwoAtsRefused | src/main/webapp/js/script.js:178-189 | an address with two '@' fails |
| Script.StrengthScore | src/main/webapp/js/script.js:197-206 | within 0..5, at most 3 for fewer than six characters |
| Script.ColourBands | src/main/webapp/js/script.js:211-219 | grey exactly for 0, red for 1-2, amber for 3, green for 4-5 |
| Script.ServerStrongShowsAtLeastAmber | src/main/webapp/js/script.js:197-219 | a password the server calls strong scores at least 3 and is never grey or red |
| Script.ValidateRegisterForm | src/main/webapp/js/script.js:242-266 | false whenever both password fields exist and differ, or the password is shorter than 6 |
| Script.RegisterFormPasses | src/main/webapp/js/script.js:242-266 | true exactly when every present field's check passes |

## Left out

- Processes, streams and threads: the ffmpeg run is an abstract trace of `(line, clock)` pairs and an ending. The stdout consumer thread, `readLine`, `waitFor` and `destroy` are not modelled. The clock is read once per line.
- Concurrency: executors, blocking `poll`/`take`, `synchronized` and interrupts are left out. A worker is one sequential `ProcessOne` step, and `awaitTermination` is not modelled.
- Persistence: the DAOs are a map from job id to row plus a log of writes. The order in which pending jobs are loaded is taken as given. `getStatistics` is not modelled.
- The BCrypt library: its hash and its verdict are parameters. Only the argument checks around it are modelled.
- The converter that `ConversionBO` calls is not defined in the wrapper shown. It is an abstract outcome: returned or threw, a success flag, and whether the output file exists.
- Floating point: the ffprobe duration and frame-rate arithmetic are parameters of the probe model. The KB/MB/GB branches of the size display and `formatBytes` are left out. The progress percentage is computed on integers, which gives the same truncated value below 101.
- File paths are normalised Unix paths. `File.getParent` and `getAbsolutePath` are modelled on that form only.
- Character classes and case mapping are ASCII only. Java's `isUpperCase` and `toLowerCase` are Unicode-aware, and so is JavaScript's `toLowerCase`.
- A `getMessage()` of null: in concatenated messages it is the text "null"; where it is stored on its own it is None.
- `model/User.java`, `model/ActivityLog.java` and the bean `Video` only store fields and are not part of this model; a user row is the `Users.User` value.
- Servlets other than the upload checks, the listener, the DOM, tooltip, animation and fetch code of the script are not part of this model.
- Upload.Post: whether the service accepted the job (`submitted`) and what getVideoInfo reports on the stored file (`info`) are parameters. The file write is not modelled.
- Users.Register: a row whose name is null counts as an insert that does not succeed. The database's own constraints are not modelled.
- Script.FormatDuration: only whole numbers of seconds are modelled; the page may pass a fractional duration.
- Script.ValidateRegisterForm: lengths count code points; JavaScript counts UTF-16 units, which differ for characters outside the Basic Multilingual Plane.
- Script.StrengthScore: its length thresholds count code points; JavaScript counts UTF-16 units, so a password with characters outside the Basic Multilingual Plane can score differently.
- Passwords.IsStrongPassword: lengths count code points, while Java's `length()` and `toCharArray()` count UTF-16 units. For "Abcdef😀" Java counts 8 units, and each half of the emoji is a special character, so Java calls it strong; the model counts 7 characters and does not.
- Passwords.Strong: the same difference as Passwords.IsStrongPassword.
- Users.IsValidPassword: the six-character minimum counts code points; Java counts UTF-16 units.
- Service.Prepare: a null-pointer exception the JVM raises itself (no parent directory in getOutputDirectory, a null original name in generateOutputFilename) is given the message "null". That is what `getMessage()` returns before Java 15. From Java 15 on, helpful NullPointerException messages make it a text that depends on the JVM and on how the class was compiled, and that text is not modelled. The explicit throw of `new File(null)` has a null message on every version.
- Bo.Prepare: the same assumption for the null file name that getOutputFilename dereferences; the stored message is None.
- Upload.Post: the same assumption for a part without a Content-Disposition header; the reply is the unexpected-error prefix followed by "null".
- Supervisor.Supervise: the same assumption for a command that cannot be built (a null format); the error callback carries the crash prefix followed by "null".
- Script.EscapeHtml: its own contract states only the length. What the text means is stated by Script.EscapedHasNoMarkup and Script.EscapeRoundTrip.
- Script.FormatDuration: its own contract states only the length. What the text means is stated by Script.FormatDurationReadsBack.
- Settings.ConversionSettings.TrimDuration: its contract states end minus start only for non-negative bounds. For negative bounds the Java int subtraction can wrap; Settings.ValidTrimCanOverflow exhibits one such case.
- Video.DurationFormatted: its own contract states only the length. What the text means is stated by Video.DurationReadsBack.
