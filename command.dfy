/** buildFFmpegCommand: the argument list FFmpegWrapper starts ffmpeg with. */
module Command {
  import opened Wrappers
  import opened Text
  import opened Settings
  import opened Codecs

  /** The options of ffmpeg's command line the converter passes; each is followed by one value. */
  datatype Flag =
    | Input | VideoCodec | Preset | Crf | Deadline | CpuUsed | Threads | AudioCodec
    | VideoBitrate | AudioBitrate | BufSize | Filter | FrameRate | Seek | Until
    | Format | MovFlags | MuxQueue | Progress

  /** The option as it is written on the command line. */
  function FlagText(f: Flag): string
  {
    match f
    case Input => "-i"
    case VideoCodec => "-c:v"
    case Preset => "-preset"
    case Crf => "-crf"
    case Deadline => "-deadline"
    case CpuUsed => "-cpu-used"
    case Threads => "-threads"
    case AudioCodec => "-c:a"
    case VideoBitrate => "-b:v"
    case AudioBitrate => "-b:a"
    case BufSize => "-bufsize"
    case Filter => "-vf"
    case FrameRate => "-r"
    case Seek => "-ss"
    case Until => "-to"
    case Format => "-f"
    case MovFlags => "-movflags"
    case MuxQueue => "-max_muxing_queue_size"
    case Progress => "-progress"
  }

  /** FFMPEG_PATH: the program is looked up on the PATH. */
  const FFMPEG: string := "ffmpeg"

  /** An entry of the argument list: a bare word, or an option together with its value. */
  datatype Arg = Word(text: string) | Opt(flag: Flag, value: string)

  /** The strings an entry contributes to the list: an option is written as two. */
  function Words(a: Arg): seq<string>
  {
    match a
    case Word(w) => [w]
    case Opt(f, v) => [FlagText(f), v]
  }

  /** The argument list as the strings handed to the process. */
  function Render(args: seq<Arg>): (words: seq<string>)
    ensures |words| >= |args|
  {
    if args == [] then [] else Render(args[..|args| - 1]) + Words(args[|args| - 1])
  }

  /** `args` with option `f` appended when `cond` holds. */
  function AddOptIf(args: seq<Arg>, cond: bool, f: Flag, v: string): (r: seq<Arg>)
    ensures args <= r
    ensures forall a :: a in r <==> a in args || (cond && a == Opt(f, v))
  {
    if cond then args + [Opt(f, v)] else args
  }

  /** A value that is present: non-null and non-empty. */
  predicate Given(v: Option<string>)
  {
    v.Some? && v.value != ""
  }

  /** The `scale=` filter argument: the resolution with every 'x' turned into ':'. */
  function ScaleFilter(resolution: string): string
  {
    "scale=" + ReplaceChar(resolution, 'x', ':')
  }

  /** The encoders that get `-preset medium -crf 23`. */
  predicate X264Family(videoCodec: string)
  {
    videoCodec == "libx264" || videoCodec == "libx265"
  }

  /** The encoder that gets `-deadline good -cpu-used 2`. */
  predicate Vp9(videoCodec: string)
  {
    videoCodec == "libvpx-vp9"
  }

  /** MP4 and MOV, in any letter case, get the fast-start flag. */
  predicate WantsFastStart(format: string)
  {
    ToLower(format) == "mp4" || ToLower(format) == "mov"
  }

  /** A trim bound that is set and positive. */
  predicate PositiveBound(t: Option<Int32>)
  {
    t.Some? && t.value > 0
  }

  /** The video codec, the tuning its encoder gets, the thread limit and the audio codec. */
  function Encoding(args: seq<Arg>, videoCodec: string, audioCodec: string): seq<Arg>
  {
    var tuned := AddOptIf(AddOptIf(args + [Opt(VideoCodec, videoCodec)], X264Family(videoCodec), Preset, "medium"),
                          X264Family(videoCodec), Crf, "23");
    AddOptIf(AddOptIf(tuned, !X264Family(videoCodec) && Vp9(videoCodec), Deadline, "good"),
             !X264Family(videoCodec) && Vp9(videoCodec), CpuUsed, "2")
      + [Opt(Threads, "4")] + [Opt(AudioCodec, audioCodec)]
  }

  /** The bitrates when given, the buffer size, the scaling when given, the frame rate when positive. */
  function Rates(args: seq<Arg>, p: Params): seq<Arg>
  {
    var bitrates := AddOptIf(AddOptIf(args, Given(p.videoBitrate), VideoBitrate, p.videoBitrate.GetOr("")),
                             Given(p.audioBitrate), AudioBitrate, p.audioBitrate.GetOr(""));
    var scaled := AddOptIf(bitrates + [Opt(BufSize, "2M")], Given(p.outputResolution), Filter,
                           ScaleFilter(p.outputResolution.GetOr("")));
    AddOptIf(scaled, p.frameRate > 0, FrameRate, IntToString(p.frameRate))
  }

  /** The trim bounds that are set and positive. */
  function Trim(args: seq<Arg>, p: Params): seq<Arg>
  {
    AddOptIf(AddOptIf(args, PositiveBound(p.startTime), Seek, IntToString(p.startTime.GetOr(0))),
             PositiveBound(p.endTime), Until, IntToString(p.endTime.GetOr(0)))
  }

  /** The container format, fast start for MP4 and MOV, the muxing queue size. */
  function Container(args: seq<Arg>, format: string): seq<Arg>
  {
    AddOptIf(args + [Opt(Format, format)], WantsFastStart(format), MovFlags, "+faststart") + [Opt(MuxQueue, "1024")]
  }

  lemma EncodingEntries(args: seq<Arg>, videoCodec: string, audioCodec: string, a: Arg)
    ensures args <= Encoding(args, videoCodec, audioCodec)
    ensures a in Encoding(args, videoCodec, audioCodec) <==>
      || a in args
      || a == Opt(VideoCodec, videoCodec)
      || (X264Family(videoCodec) && (a == Opt(Preset, "medium") || a == Opt(Crf, "23")))
      || (Vp9(videoCodec) && (a == Opt(Deadline, "good") || a == Opt(CpuUsed, "2")))
      || a == Opt(Threads, "4")
      || a == Opt(AudioCodec, audioCodec)
  {
  }

  lemma RatesEntries(args: seq<Arg>, p: Params, a: Arg)
    ensures args <= Rates(args, p)
    ensures a in Rates(args, p) <==>
      || a in args
      || (Given(p.videoBitrate) && a == Opt(VideoBitrate, p.videoBitrate.value))
      || (Given(p.audioBitrate) && a == Opt(AudioBitrate, p.audioBitrate.value))
      || a == Opt(BufSize, "2M")
      || (Given(p.outputResolution) && a == Opt(Filter, ScaleFilter(p.outputResolution.value)))
      || (p.frameRate > 0 && a == Opt(FrameRate, IntToString(p.frameRate)))
  {
  }

  lemma TrimEntries(args: seq<Arg>, p: Params, a: Arg)
    ensures args <= Trim(args, p)
    ensures a in Trim(args, p) <==>
      || a in args
      || (PositiveBound(p.startTime) && a == Opt(Seek, IntToString(p.startTime.value)))
      || (PositiveBound(p.endTime) && a == Opt(Until, IntToString(p.endTime.value)))
  {
  }

  lemma ContainerEntries(args: seq<Arg>, format: string, a: Arg)
    ensures args <= Container(args, format)
    ensures a in Container(args, format) <==>
      || a in args
      || a == Opt(Format, format)
      || (WantsFastStart(format) && a == Opt(MovFlags, "+faststart"))
      || a == Opt(MuxQueue, "1024")
  {
  }

  /**
   * The argument list buildFFmpegCommand produces, entry by entry in the order the Java code
   * adds them; None where the null output format makes it throw.
   */
  function Layout(input: string, output: string, p: Params): (r: Option<seq<Arg>>)
    ensures r.None? <==> p.outputFormat.None?
  {
    if p.outputFormat.None? then None
    else
      var format := p.outputFormat.value;
      var head := [Word(FFMPEG)] + [Opt(Input, input)];
      var options := Encoding(head, VideoCodecForFormat(format, p.codec), AudioCodecForFormat(format));
      var last := Container(Trim(Rates(options, p), p), format);
      Some(last + [Word("-y")] + [Opt(Progress, "pipe:1")] + [Word(output)])
  }

  /** Rendering one more entry appends its words. */
  lemma RenderSnoc(s: seq<Arg>, a: Arg)
    ensures Render(s + [a]) == Render(s) + Words(a)
  {
    assert (s + [a])[..|s|] == s;
  }

  /** Rendering distributes over concatenation. */
  lemma {:induction false} RenderAppend(a: seq<Arg>, b: seq<Arg>)
    ensures Render(a + b) == Render(a) + Render(b)
    decreases |b|
  {
    if b == [] {
      assert a + b == a;
    } else {
      var front, x := b[..|b| - 1], b[|b| - 1];
      assert b == front + [x];
      assert a + b == (a + front) + [x];
      RenderSnoc(a + front, x);
      RenderSnoc(front, x);
      RenderAppend(a, front);
      AppendAssoc(Render(a), Render(front), Words(x));
    }
  }

  /**
   * The command always starts with the program and its input and ends with the overwrite
   * flag, the progress pipe and the output path, whatever the settings.
   */
  lemma LayoutShape(input: string, output: string, p: Params)
    requires p.outputFormat.Some?
    ensures var words := Render(Layout(input, output, p).value);
      && |words| >= 7
      && words[..3] == [FFMPEG, "-i", input]
      && words[|words| - 4..] == ["-y", "-progress", "pipe:1", output]
  {
    var format := p.outputFormat.value;
    var head := [Word(FFMPEG)] + [Opt(Input, input)];
    var options := Encoding(head, VideoCodecForFormat(format, p.codec), AudioCodecForFormat(format));
    var rated := Rates(options, p);
    var trimmed := Trim(rated, p);
    var last := Container(trimmed, format);
    assert head <= options by {
      EncodingEntries(head, VideoCodecForFormat(format, p.codec), AudioCodecForFormat(format), Word(FFMPEG));
    }
    assert options <= rated by { RatesEntries(options, p, Word(FFMPEG)); }
    assert rated <= trimmed by { TrimEntries(rated, p, Word(FFMPEG)); }
    assert trimmed <= last by { ContainerEntries(trimmed, format, Word(FFMPEG)); }
    assert Layout(input, output, p).value == last + [Word("-y")] + [Opt(Progress, "pipe:1")] + [Word(output)];
    FramedShape(input, output, head, options, rated, trimmed, last);
  }

  /** LayoutShape with the middle sections left abstract: only their prefix order matters. */
  lemma FramedShape(input: string, output: string,
                    head: seq<Arg>, options: seq<Arg>, rated: seq<Arg>, trimmed: seq<Arg>, last: seq<Arg>)
    requires head == [Word(FFMPEG)] + [Opt(Input, input)]
    requires head <= options <= rated <= trimmed <= last
    ensures var words := Render(last + [Word("-y")] + [Opt(Progress, "pipe:1")] + [Word(output)]);
      && |words| >= 7
      && words[..3] == [FFMPEG, "-i", input]
      && words[|words| - 4..] == ["-y", "-progress", "pipe:1", output]
  {
    assert head <= last;
    var middle := last[|head|..];
    assert last == head + middle;
    RenderFramed(input, output, middle);
    var words := [FFMPEG, "-i", input] + Render(middle) + ["-y", "-progress", "pipe:1", output];
    assert words[..3] == [FFMPEG, "-i", input];
    assert words[|words| - 4..] == ["-y", "-progress", "pipe:1", output];
  }

  /** The words of a command framed by the program and input at the front and the fixed tail. */
  lemma RenderFramed(input: string, output: string, middle: seq<Arg>)
    ensures Render([Word(FFMPEG)] + [Opt(Input, input)] + middle + [Word("-y")] + [Opt(Progress, "pipe:1")] + [Word(output)])
         == [FFMPEG, "-i", input] + Render(middle) + ["-y", "-progress", "pipe:1", output]
  {
    var head := [Word(FFMPEG)] + [Opt(Input, input)];
    RenderHead(input);
    RenderAppend(head, middle);
    RenderTail(head + middle, output);
  }

  lemma RenderHead(input: string)
    ensures Render([Word(FFMPEG)] + [Opt(Input, input)]) == [FFMPEG, "-i", input]
  {
    RenderSnoc([Word(FFMPEG)], Opt(Input, input));
    RenderSnoc([], Word(FFMPEG));
  }

  lemma RenderTail(front: seq<Arg>, output: string)
    ensures Render(front + [Word("-y")] + [Opt(Progress, "pipe:1")] + [Word(output)])
         == Render(front) + ["-y", "-progress", "pipe:1", output]
  {
    RenderSnoc(front, Word("-y"));
    RenderSnoc(front + [Word("-y")], Opt(Progress, "pipe:1"));
    RenderSnoc(front + [Word("-y")] + [Opt(Progress, "pipe:1")], Word(output));
  }

  /**
   * The value each option is passed with, None for an option that is left out: the
   * conditions and values of buildFFmpegCommand, option by option.
   */
  function OptionValue(input: string, p: Params, f: Flag): Option<string>
    requires p.outputFormat.Some?
  {
    var format := p.outputFormat.value;
    var videoCodec := VideoCodecForFormat(format, p.codec);
    match f
    case Input => Some(input)
    case VideoCodec => Some(videoCodec)
    case Preset => if X264Family(videoCodec) then Some("medium") else None
    case Crf => if X264Family(videoCodec) then Some("23") else None
    case Deadline => if Vp9(videoCodec) then Some("good") else None
    case CpuUsed => if Vp9(videoCodec) then Some("2") else None
    case Threads => Some("4")
    case AudioCodec => Some(AudioCodecForFormat(format))
    case VideoBitrate => if Given(p.videoBitrate) then p.videoBitrate else None
    case AudioBitrate => if Given(p.audioBitrate) then p.audioBitrate else None
    case BufSize => Some("2M")
    case Filter => if Given(p.outputResolution) then Some(ScaleFilter(p.outputResolution.value)) else None
    case FrameRate => if p.frameRate > 0 then Some(IntToString(p.frameRate)) else None
    case Seek => if PositiveBound(p.startTime) then Some(IntToString(p.startTime.value)) else None
    case Until => if PositiveBound(p.endTime) then Some(IntToString(p.endTime.value)) else None
    case Format => Some(format)
    case MovFlags => if WantsFastStart(format) then Some("+faststart") else None
    case MuxQueue => Some("1024")
    case Progress => Some("pipe:1")
  }

  /**
   * An option appears in the command with a value exactly when the table above gives it
   * that value: each option is passed under its condition only, and with no other value.
   */
  lemma LayoutOptions(input: string, output: string, p: Params, f: Flag, v: string)
    requires p.outputFormat.Some?
    ensures Opt(f, v) in Layout(input, output, p).value <==> OptionValue(input, p, f) == Some(v)
  {
    var format := p.outputFormat.value;
    var head := [Word(FFMPEG)] + [Opt(Input, input)];
    var videoCodec := VideoCodecForFormat(format, p.codec);
    var audioCodec := AudioCodecForFormat(format);
    var options := Encoding(head, videoCodec, audioCodec);
    var rated := Rates(options, p);
    var trimmed := Trim(rated, p);
    var last := Container(trimmed, format);
    EncodingEntries(head, videoCodec, audioCodec, Opt(f, v));
    RatesEntries(options, p, Opt(f, v));
    TrimEntries(rated, p, Opt(f, v));
    ContainerEntries(trimmed, format, Opt(f, v));
    ChainOptions(input, output, p, f, v, head, options, rated, trimmed, last);
  }

  /** The membership facts of the sections, chained: LayoutOptions with the sections left abstract. */
  lemma ChainOptions(input: string, output: string, p: Params, f: Flag, v: string,
                     head: seq<Arg>, options: seq<Arg>, rated: seq<Arg>, trimmed: seq<Arg>, last: seq<Arg>)
    requires p.outputFormat.Some?
    requires head == [Word(FFMPEG)] + [Opt(Input, input)]
    requires Opt(f, v) in options <==>
      || Opt(f, v) in head
      || Opt(f, v) == Opt(VideoCodec, VideoCodecForFormat(p.outputFormat.value, p.codec))
      || (X264Family(VideoCodecForFormat(p.outputFormat.value, p.codec)) && (Opt(f, v) == Opt(Preset, "medium") || Opt(f, v) == Opt(Crf, "23")))
      || (Vp9(VideoCodecForFormat(p.outputFormat.value, p.codec)) && (Opt(f, v) == Opt(Deadline, "good") || Opt(f, v) == Opt(CpuUsed, "2")))
      || Opt(f, v) == Opt(Threads, "4")
      || Opt(f, v) == Opt(AudioCodec, AudioCodecForFormat(p.outputFormat.value))
    requires Opt(f, v) in rated <==>
      || Opt(f, v) in options
      || (Given(p.videoBitrate) && Opt(f, v) == Opt(VideoBitrate, p.videoBitrate.value))
      || (Given(p.audioBitrate) && Opt(f, v) == Opt(AudioBitrate, p.audioBitrate.value))
      || Opt(f, v) == Opt(BufSize, "2M")
      || (Given(p.outputResolution) && Opt(f, v) == Opt(Filter, ScaleFilter(p.outputResolution.value)))
      || (p.frameRate > 0 && Opt(f, v) == Opt(FrameRate, IntToString(p.frameRate)))
    requires Opt(f, v) in trimmed <==>
      || Opt(f, v) in rated
      || (PositiveBound(p.startTime) && Opt(f, v) == Opt(Seek, IntToString(p.startTime.value)))
      || (PositiveBound(p.endTime) && Opt(f, v) == Opt(Until, IntToString(p.endTime.value)))
    requires Opt(f, v) in last <==>
      || Opt(f, v) in trimmed
      || Opt(f, v) == Opt(Format, p.outputFormat.value)
      || (WantsFastStart(p.outputFormat.value) && Opt(f, v) == Opt(MovFlags, "+faststart"))
      || Opt(f, v) == Opt(MuxQueue, "1024")
    ensures Opt(f, v) in last + [Word("-y")] + [Opt(Progress, "pipe:1")] + [Word(output)]
            <==> OptionValue(input, p, f) == Some(v)
  {
  }

  /** The strings buildFFmpegCommand returns, None where it throws. */
  function CommandLine(input: string, output: string, p: Params): Option<seq<string>>
  {
    if p.outputFormat.None? then None else Some(Render(Layout(input, output, p).value))
  }

  /**
   * buildFFmpegCommand. The list is built as entries, each option paired with its value,
   * and handed back as the strings they stand for. None stands for the NullPointerException
   * a null output format causes.
   */
  method BuildCommand(input: string, output: string, settings: ConversionSettings) returns (cmd: Option<seq<string>>)
    ensures cmd.None? <==> settings.outputFormat.None?
    ensures cmd.Some? ==> cmd.value == Render(Layout(input, output, settings.Value()).value)
  {
    if settings.outputFormat.None? {
      return None;
    }
    var format := settings.outputFormat.value;
    var command: seq<Arg> := [Word(FFMPEG)];
    command := command + [Opt(Input, input)];
    var videoCodec := VideoCodecForFormat(format, settings.codec);
    var audioCodec := AudioCodecForFormat(format);
    command := AddEncoding(command, videoCodec, audioCodec);
    command := AddRates(command, settings);
    command := AddTrim(command, settings);
    command := AddContainer(command, format);
    command := command + [Word("-y")];
    command := command + [Opt(Progress, "pipe:1")];
    command := command + [Word(output)];
    return Some(Render(command));
  }

  /** The codec part of buildFFmpegCommand, appended in the order the Java code adds it. */
  method AddEncoding(command: seq<Arg>, videoCodec: string, audioCodec: string) returns (r: seq<Arg>)
    ensures r == Encoding(command, videoCodec, audioCodec)
  {
    r := command + [Opt(VideoCodec, videoCodec)];
    if videoCodec == "libx264" || videoCodec == "libx265" {
      r := r + [Opt(Preset, "medium")];
      r := r + [Opt(Crf, "23")];
    } else if videoCodec == "libvpx-vp9" {
      r := r + [Opt(Deadline, "good")];
      r := r + [Opt(CpuUsed, "2")];
    }
    r := r + [Opt(Threads, "4")];
    r := r + [Opt(AudioCodec, audioCodec)];
  }

  /** The bitrate, buffer, scaling and frame-rate part of buildFFmpegCommand. */
  method AddRates(command: seq<Arg>, settings: ConversionSettings) returns (r: seq<Arg>)
    ensures r == Rates(command, settings.Value())
  {
    r := command;
    if settings.videoBitrate.Some? && settings.videoBitrate.value != "" {
      r := r + [Opt(VideoBitrate, settings.videoBitrate.value)];
    }
    if settings.audioBitrate.Some? && settings.audioBitrate.value != "" {
      r := r + [Opt(AudioBitrate, settings.audioBitrate.value)];
    }
    r := r + [Opt(BufSize, "2M")];
    if settings.outputResolution.Some? && settings.outputResolution.value != "" {
      r := r + [Opt(Filter, "scale=" + ReplaceChar(settings.outputResolution.value, 'x', ':'))];
    }
    if settings.frameRate > 0 {
      r := r + [Opt(FrameRate, IntToString(settings.frameRate))];
    }
  }

  /** The trim part of buildFFmpegCommand. */
  method AddTrim(command: seq<Arg>, settings: ConversionSettings) returns (r: seq<Arg>)
    ensures r == Trim(command, settings.Value())
  {
    r := command;
    if settings.startTime.Some? && settings.startTime.value > 0 {
      r := r + [Opt(Seek, IntToString(settings.startTime.value))];
    }
    if settings.endTime.Some? && settings.endTime.value > 0 {
      r := r + [Opt(Until, IntToString(settings.endTime.value))];
    }
  }

  /** The container part of buildFFmpegCommand. */
  method AddContainer(command: seq<Arg>, format: string) returns (r: seq<Arg>)
    ensures r == Container(command, format)
  {
    r := command + [Opt(Format, format)];
    var lower := ToLower(format);
    if lower == "mp4" || lower == "mov" {
      r := r + [Opt(MovFlags, "+faststart")];
    }
    r := r + [Opt(MuxQueue, "1024")];
  }
}
