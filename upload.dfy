/**
 * controller/UploadServlet.java: the checks an upload goes through, the name the stored
 * file gets, and the conversion settings read from the form. Streams, the session and the
 * database inserts are replaced by what they report.
 */
module Upload {
  import opened Wrappers
  import opened Text
  import opened Settings
  import opened Job
  import Probe

  /** The content types accepted, matched as substrings of the lower-cased header. */
  const ALLOWED_FORMATS: seq<string> := ["video/mp4", "video/avi", "video/x-msvideo", "video/quicktime",
                                         "video/x-matroska", "video/webm", "video/x-flv", "video/mpeg"]
  const MAX_FILE_SIZE: int := 500 * 1024 * 1024
  const UNKNOWN_NAME: string := "unknown"
  const FILENAME_KEY: string := "filename"
  const DEFAULT_FORMAT: string := "mp4"
  const SEPARATOR: char := '/'

  // ---------------------------------------------------------------- the submitted name

  /** The value of a `filename` segment: after its first '=', trimmed, without any '"'. */
  function SegmentValue(segment: string): (r: string)
    ensures '"' !in r
  {
    RemoveChar(Trim(segment[IndexOf(segment, '=') + 1..]), '"')
  }

  /** The first segment whose trimmed text starts with "filename" gives the name; none gives "unknown". */
  function FirstFilename(segments: seq<string>): (r: string)
    ensures '"' !in r
  {
    if segments == [] then UNKNOWN_NAME
    else if StartsWith(Trim(segments[0]), FILENAME_KEY) then SegmentValue(segments[0])
    else FirstFilename(segments[1..])
  }

  predicate NamesFile(segment: string)
  {
    StartsWith(Trim(segment), FILENAME_KEY)
  }

  /** The name comes from the first segment that starts with "filename", whatever follows it. */
  lemma {:induction false} FirstFilenameFinds(segments: seq<string>, k: nat)
    requires k < |segments| && NamesFile(segments[k])
    requires forall j :: 0 <= j < k ==> !NamesFile(segments[j])
    ensures FirstFilename(segments) == SegmentValue(segments[k])
    decreases k
  {
    if k > 0 {
      FirstFilenameFinds(segments[1..], k - 1);
    }
  }

  /** With no such segment the name is "unknown". */
  lemma {:induction false} FirstFilenameUnknown(segments: seq<string>)
    requires forall j :: 0 <= j < |segments| ==> !NamesFile(segments[j])
    ensures FirstFilename(segments) == UNKNOWN_NAME
    decreases |segments|
  {
    if segments != [] {
      FirstFilenameUnknown(segments[1..]);
    }
  }

  /**
   * getSubmittedFileName: the Content-Disposition header split at ';'. None when the part
   * has no such header, where `split` is called on null.
   */
  function SubmittedFileName(disposition: Option<string>): (r: Option<string>)
    ensures r.None? <==> disposition.None?
    ensures r.Some? ==> '"' !in r.value
  {
    match disposition
    case None => None
    case Some(header) => Some(FirstFilename(JavaSplit(header, ';')))
  }

  /** The header a browser sends for a file field, with the file's name quoted. */
  function Disposition(field: string, name: string): string
  {
    "form-data" + [';'] + (FieldSegment(field) + [';'] + FileSegment(name))
  }

  function FieldSegment(field: string): string
  {
    " name=\"" + field + "\""
  }

  function FileSegment(name: string): string
  {
    " filename=\"" + name + "\""
  }

  /** The name a browser sent is the name read back, when it has no quote and no ';'. */
  lemma SubmittedNameReadsBack(field: string, name: string)
    requires '"' !in name && ';' !in name && ';' !in field && '"' !in field
    ensures SubmittedFileName(Some(Disposition(field, name))) == Some(name)
  {
    var segments := ["form-data", FieldSegment(field), FileSegment(name)];
    SplitDisposition(field, name);
    SegmentsOfDisposition(field, name);
    FirstFilenameFinds(segments, 2);
    QuotedValue(name);
  }

  /** The header splits into its three segments. */
  lemma SplitDisposition(field: string, name: string)
    requires ';' !in name && ';' !in field
    ensures JavaSplit(Disposition(field, name), ';') == ["form-data", FieldSegment(field), FileSegment(name)]
  {
    var s0, s1, s2 := "form-data", FieldSegment(field), FileSegment(name);
    assert ';' !in s0;
    NoSemicolon(" name=\"", field, "\"");
    NoSemicolon(" filename=\"", name, "\"");
    SplitAtFirst(s0, ';', s1 + [';'] + s2);
    SplitAtFirst(s1, ';', s2);
    assert SplitAll(s2, ';') == [s2];
    var h := Disposition(field, name);
    assert h[|s0|] == ';';
  }

  lemma NoSemicolon(a: string, b: string, c: string)
    requires ';' !in a && ';' !in b && ';' !in c
    ensures ';' !in a + b + c
  {
  }

  /** Only the third segment names the file. */
  lemma SegmentsOfDisposition(field: string, name: string)
    ensures !NamesFile("form-data")
    ensures !NamesFile(FieldSegment(field))
    ensures NamesFile(FileSegment(name))
  {
    var s1, s2 := FieldSegment(field), FileSegment(name);
    TrimKeepsUntrimmable("form-data");
    assert "form-data"[1] != FILENAME_KEY[1];
    TrimSpaceThen(s1[1..]);
    assert s1 == " " + s1[1..];
    assert s1[1..][0] == 'n';
    TrimSpaceThen(s2[1..]);
    assert s2 == " " + s2[1..];
    assert s2[1..][..8] == FILENAME_KEY;
  }

  /** A leading space goes in trimming when the rest is already trimmed. */
  lemma TrimSpaceThen(s: string)
    requires s != [] && !IsTrimmable(s[0]) && !IsTrimmable(s[|s| - 1])
    ensures Trim(" " + s) == s
  {
    assert (" " + s)[1..] == s;
    assert TrimStart(" " + s) == TrimStart(s);
    TrimKeepsUntrimmable(s);
    TrimStartFacts(s);
    assert TrimStart(s) == s;
  }

  /** ` filename="<name>"` gives back the name. */
  lemma QuotedValue(name: string)
    requires '"' !in name
    ensures SegmentValue(FileSegment(name)) == name
  {
    var seg := FileSegment(name);
    assert IndexOf(seg, '=') == 9 by {
      assert seg[9] == '=';
      assert forall j :: 0 <= j < 9 ==> seg[j] != '=';
    }
    var quoted := seg[10..];
    assert quoted == "\"" + name + "\"";
    TrimKeepsUntrimmable(quoted);
    RemoveQuotes(name);
  }

  lemma RemoveQuotes(name: string)
    requires '"' !in name
    ensures RemoveChar("\"" + name + "\"", '"') == name
  {
    var q := "\"" + name + "\"";
    assert q[1..] == name + "\"";
    RemoveCharAppend(name, "\"", '"');
    assert RemoveChar("\"", '"') == [];
  }

  /** Removing a character from a concatenation removes it from each part. */
  lemma {:induction false} RemoveCharAppend(a: string, b: string, c: char)
    ensures RemoveChar(a + b, c) == RemoveChar(a, c) + RemoveChar(b, c)
    decreases |a|
  {
    if a != [] {
      assert (a + b)[1..] == a[1..] + b;
      RemoveCharAppend(a[1..], b, c);
    } else {
      assert a + b == b;
    }
  }

  // ---------------------------------------------------------------- the stored name

  /** The characters of `[a-zA-Z0-9_-]`, kept in the stored name. */
  predicate IsSafeChar(c: char)
  {
    IsAlnum(c) || c == '_' || c == '-'
  }

  /** `replaceAll("[^a-zA-Z0-9_-]", "_")`: every other character becomes '_', one for one. */
  function Sanitize(s: string): (r: string)
    ensures |r| == |s|
    ensures forall i :: 0 <= i < |s| ==> r[i] == (if IsSafeChar(s[i]) then s[i] else '_')
  {
    seq(|s|, i requires 0 <= i < |s| => if IsSafeChar(s[i]) then s[i] else '_')
  }

  /** The extension kept by generateUniqueFilename: from the last '.', when that is not the first character. */
  function KeptExtension(name: string): (e: string)
    ensures LastIndexOf(name, '.') <= 0 ==> e == []
    ensures LastIndexOf(name, '.') > 0 ==> e == name[LastIndexOf(name, '.')..]
  {
    var dot := LastIndexOf(name, '.');
    if dot > 0 then name[dot..] else []
  }

  /** The stored name before its extension: the sanitised base, '_' and the clock reading. */
  function Stem(original: string, now: int): (stem: string)
    ensures |stem| == |original| - |KeptExtension(original)| + 1 + |IntToString(now)|
  {
    Sanitize(original[..|original| - |KeptExtension(original)|]) + "_" + IntToString(now)
  }

  /**
   * generateUniqueFilename: the base sanitised, '_', the clock reading, and the extension
   * as it was.
   */
  function UniqueFilename(original: string, now: int): (r: string)
  {
    Stem(original, now) + KeptExtension(original)
  }

  /**
   * The stored name has the original's length plus the separator and the stamp, only safe
   * characters before its extension, and the same format as the original.
   */
  lemma UniqueFilenameShape(original: string, now: int)
    ensures var r := UniqueFilename(original, now);
            var ext := KeptExtension(original);
            |r| == |original| + 1 + |IntToString(now)| &&
            r[|r| - |ext|..] == ext &&
            (forall i :: 0 <= i < |original| - |ext| ==> IsSafeChar(r[i])) &&
            Probe.Extension(r) == Probe.Extension(original)
  {
    var ext := KeptExtension(original);
    var stem := Stem(original, now);
    var r := UniqueFilename(original, now);
    assert r[|r| - |ext|..] == ext;
    forall i | 0 <= i < |original| - |ext| ensures IsSafeChar(r[i]) {
      assert r[i] == stem[i] == Sanitize(original[..|original| - |ext|])[i];
    }
    StemHasNoDot(original, now);
    var dot := LastIndexOf(original, '.');
    if dot > 0 {
      assert original[dot + 1..] == ext[1..];
    }
    ExtensionAfter(stem, ext);
  }

  lemma StemHasNoDot(original: string, now: int)
    ensures '.' !in Stem(original, now)
  {
    var base := Sanitize(original[..|original| - |KeptExtension(original)|]);
    var stem := Stem(original, now);
    NoDotInNumber(now);
    forall i | 0 <= i < |stem| ensures stem[i] != '.' {
      if i > |base| {
        assert stem[i] == IntToString(now)[i - |base| - 1];
      }
    }
  }

  /** After a dot-free stem, the extension read off the name is the one appended. */
  lemma ExtensionAfter(stem: string, ext: string)
    requires '.' !in stem && stem != []
    requires ext == [] || (ext[0] == '.' && '.' !in ext[1..])
    ensures Probe.Extension(stem + ext) == (if ext == [] then None else Some(ext[1..]))
  {
    var r := stem + ext;
    if ext == [] {
      assert r == stem;
      assert forall j :: 0 <= j < |r| ==> r[j] != '.';
    } else {
      assert r[|stem|] == '.';
      forall j | |stem| < j < |r| ensures r[j] != '.' {
        assert r[j] == ext[1..][j - |stem| - 1];
      }
      assert LastIndexOf(r, '.') == |stem|;
      assert r[|stem| + 1..] == ext[1..];
    }
  }

  /** A printed number holds no dot. */
  lemma NoDotInNumber(n: int)
    ensures '.' !in IntToString(n)
  {
    var s := IntToString(n);
    var digits := NatToString(if n < 0 then -n else n);
    assert forall i :: 0 <= i < |digits| ==> IsDigit(digits[i]);
    if n < 0 {
      assert s == "-" + digits;
      forall i | 0 <= i < |s| ensures s[i] != '.' {
        if i > 0 {
          assert s[i] == digits[i - 1];
        }
      }
    }
  }

  // ---------------------------------------------------------------- the content type

  /** isValidVideoFormat: a non-null content type that, lower-cased, contains an allowed type. */
  predicate IsValidVideoFormat(contentType: Option<string>)
  {
    contentType.Some? &&
    exists k :: 0 <= k < |ALLOWED_FORMATS| && Contains(ToLower(contentType.value), ToLower(ALLOWED_FORMATS[k]))
  }

  /**
   * The check ignores letter case, accepts every allowed type as it stands and with
   * parameters after it, and refuses a missing header.
   */
  lemma VideoFormatChecks(contentType: string, k: nat, parameters: string)
    requires k < |ALLOWED_FORMATS|
    ensures IsValidVideoFormat(Some(ToUpper(contentType))) == IsValidVideoFormat(Some(contentType))
    ensures IsValidVideoFormat(Some(ALLOWED_FORMATS[k] + parameters))
    ensures !IsValidVideoFormat(None)
  {
    LowerOfUpper(contentType);
    var t := ALLOWED_FORMATS[k];
    var s := t + parameters;
    assert ToLower(t) == t by {
      forall i | 0 <= i < |t| ensures !IsUpper(t[i]) {
      }
    }
    assert ToLower(s)[..|t|] == t;
    assert OccursAt(ToLower(s), ToLower(t), 0);
  }

  // ---------------------------------------------------------------- the form

  /**
   * The settings doPost builds: the default object, the format ("mp4" when blank), the
   * resolution as sent, the quality ("medium" when blank) and its bitrates; a start or end
   * time is used when it parses as an int and ignored otherwise.
   */
  function FormSettings(outputFormat: Option<string>, outputResolution: Option<string>,
                        quality: Option<string>, startTime: Option<string>, endTime: Option<string>): (p: Params)
    ensures p.outputFormat.Some? && !IsBlank(p.outputFormat.value)
    ensures p.quality.Some? && p.videoBitrate.Some? && p.audioBitrate.Some?
    ensures (p.videoBitrate.value, p.audioBitrate.value) == PresetBitrates(p.quality.value)
    ensures p.frameRate == DEFAULT_FRAME_RATE && p.codec == Some(DEFAULT_CODEC)
    ensures p.outputResolution == outputResolution
  {
    var format := if NullOrBlank(outputFormat) then DEFAULT_FORMAT else outputFormat.value;
    var q := if NullOrBlank(quality) then DEFAULT_QUALITY else quality.value;
    var (v, a) := PresetBitrates(q);
    assert !IsBlank(DEFAULT_FORMAT) by { TrimKeepsUntrimmable(DEFAULT_FORMAT); }
    Params(Some(format), outputResolution, Some(q), Some(v), Some(a), Some(DEFAULT_CODEC), DEFAULT_FRAME_RATE,
           TimeField(startTime), TimeField(endTime))
  }

  /** A trim bound from the form: used when present, not blank and an int; otherwise unset. */
  function TimeField(text: Option<string>): (t: Option<Int32>)
    ensures t.Some? <==> !NullOrBlank(text) && ParseInt(text.value).Some?
    ensures t.Some? ==> t.value == ParseInt(text.value).value
  {
    if NullOrBlank(text) then None
    else match ParseInt(text.value)
      case None => None
      case Some(v) => Some(v)
  }

  /**
   * The form's defaults: a blank format gives mp4, a blank quality the medium bitrates, and
   * the settings are valid unless both trim bounds were given with the start not before the end.
   */
  lemma FormDefaults(outputResolution: Option<string>, startTime: Option<string>, endTime: Option<string>)
    ensures var p := FormSettings(None, outputResolution, Some(""), startTime, endTime);
            p.outputFormat == Some(DEFAULT_FORMAT) && p.videoBitrate == Some("1500k") && p.audioBitrate == Some("128k")
    ensures var p := FormSettings(None, outputResolution, None, startTime, endTime);
            ValidParams(p) <==> !(p.startTime.Some? && p.endTime.Some? && p.startTime.value >= p.endTime.value)
  {
    assert IsBlank("");
  }

  /** A start time that is not a number is dropped, not refused. */
  lemma BadTimeIgnored(outputFormat: Option<string>, quality: Option<string>, text: string, endTime: Option<string>)
    requires ParseInt(text).None?
    ensures FormSettings(outputFormat, None, quality, Some(text), endTime).startTime.None?
  {
  }

  // ---------------------------------------------------------------- doPost

  /** The uploaded part, as far as doPost reads it. */
  datatype FilePart = FilePart(size: int, contentType: Option<string>, disposition: Option<string>)

  /**
   * What doPost learns from outside the request: where uploads are kept, the clock, what
   * getVideoInfo reports on the stored file (None for null), the ids the two inserts return,
   * and whether the service accepted the job.
   */
  datatype Backend = Backend(uploadsPath: string, now: int, info: Option<Probe.VideoInfo>,
                             videoId: Int32, jobId: Int32, submitted: bool)

  /** The estimate set on a new job: the probed duration, one second per second, when positive. */
  function EstimatedTime(info: Option<Probe.VideoInfo>): (t: Option<Int32>)
    ensures t.Some? <==> info.Some? && info.value.duration > 0
    ensures t.Some? ==> t.value == info.value.duration && t.value > 0
  {
    if info.Some? && info.value.duration > 0 then Some(info.value.duration) else None
  }

  /** How doPost ends: the login page, the form again with a message, or the status page. */
  datatype Reply =
    | ToLogin
    | FormError(message: string)
    | Queued(filePath: string, job: JobRecord)

  const NO_FILE: string := "Please select a video file to upload."
  const BAD_FORMAT: string := "Invalid file format. Please upload a valid video file (MP4, AVI, MKV, WebM, etc.)."
  const TOO_LARGE: string := "File size exceeds maximum limit of 500MB."
  const VIDEO_NOT_SAVED: string := "Failed to save video information. Please try again."
  const JOB_NOT_SAVED: string := "Failed to create conversion job. Please try again."
  const NOT_SUBMITTED: string := "Failed to submit conversion job to processing queue. Please try again later."
  const UNEXPECTED: string := "An unexpected error occurred during upload: "

  /** The form fields doPost reads. */
  datatype Form = Form(outputFormat: Option<string>, outputResolution: Option<string>, quality: Option<string>,
                       startTime: Option<string>, endTime: Option<string>)

  /**
   * doPost, in the order of its checks. A part without a Content-Disposition header fails
   * with a null pointer, which the catch-all reports with the message "null". The login
   * page is shown exactly without a user; every refusal carries one of the fixed messages
   * or the unexpected-error prefix.
   */
  function Post(userId: Option<Int32>, part: Option<FilePart>, form: Form, backend: Backend): (reply: Reply)
    ensures reply.ToLogin? <==> userId.None?
    ensures reply.FormError? ==>
              reply.message in {NO_FILE, BAD_FORMAT, TOO_LARGE, VIDEO_NOT_SAVED, JOB_NOT_SAVED, NOT_SUBMITTED} ||
              StartsWith(reply.message, UNEXPECTED)
  {
    if userId.None? then ToLogin
    else if part.None? || part.value.size == 0 then FormError(NO_FILE)
    else if !IsValidVideoFormat(part.value.contentType) then FormError(BAD_FORMAT)
    else match SubmittedFileName(part.value.disposition)
      case None => FormError(UNEXPECTED + "null")
      case Some(original) =>
        if part.value.size > MAX_FILE_SIZE then FormError(TOO_LARGE)
        else
          var filePath := backend.uploadsPath + [SEPARATOR] + UniqueFilename(original, backend.now);
          if backend.videoId <= 0 then FormError(VIDEO_NOT_SAVED)
          else
            var settings := FormSettings(form.outputFormat, form.outputResolution, form.quality,
                                         form.startTime, form.endTime);
            if backend.jobId <= 0 then FormError(JOB_NOT_SAVED)
            else if !backend.submitted then FormError(NOT_SUBMITTED)
            else
              var job := ConversionJob.Initial(backend.videoId, userId.value, settings);
              Queued(filePath, job.(estimatedTime := EstimatedTime(backend.info), jobId := backend.jobId))
  }

  /**
   * An upload is queued only for a logged-in user with a non-empty part of an allowed type
   * and at most 500 MB, once both records exist; the job is then a new PENDING job for that
   * video and user, with the form's settings, the probed duration as its estimate when that
   * is positive, and the stored file under the uploads path.
   */
  lemma QueuedOnlyWhenAccepted(userId: Option<Int32>, part: Option<FilePart>, form: Form, backend: Backend)
    ensures var reply := Post(userId, part, form, backend);
            reply.Queued? <==>
              userId.Some? && part.Some? && part.value.size != 0 && part.value.size <= MAX_FILE_SIZE &&
              IsValidVideoFormat(part.value.contentType) && part.value.disposition.Some? &&
              backend.videoId > 0 && backend.jobId > 0 && backend.submitted
    ensures var reply := Post(userId, part, form, backend);
            reply.Queued? ==>
              reply.job.status == Some(PENDING) && reply.job.progress == 0 &&
              reply.job.videoId == backend.videoId && reply.job.userId == userId.value &&
              reply.job.jobId == backend.jobId && reply.job.retryCount == 0 &&
              reply.job.settings == FormSettings(form.outputFormat, form.outputResolution, form.quality,
                                                 form.startTime, form.endTime) &&
              reply.job.estimatedTime ==
                (if backend.info.Some? && backend.info.value.duration > 0 then Some(backend.info.value.duration) else None) &&
              StartsWith(reply.filePath, backend.uploadsPath + [SEPARATOR])
  {
    var reply := Post(userId, part, form, backend);
    if reply.Queued? {
      var original := SubmittedFileName(part.value.disposition).value;
      var name := UniqueFilename(original, backend.now);
      assert reply.filePath == (backend.uploadsPath + [SEPARATOR]) + name;
    }
  }

  /** Files over the limit are refused before either record is created. */
  lemma OversizeRefusedBeforeRecords(userId: Int32, part: FilePart, form: Form, b1: Backend, b2: Backend)
    requires part.size > MAX_FILE_SIZE
    ensures Post(Some(userId), Some(part), form, b1) == Post(Some(userId), Some(part), form, b2)
    ensures Post(Some(userId), Some(part), form, b1).FormError?
  {
  }
}
