/**
 * getVideoInfo and getVideoInfoFFmpeg: the metadata FFmpegWrapper reads from ffprobe's
 * `key=value` lines and from ffmpeg's banner, and VideoInfo.getResolution.
 */
module Probe {
  import opened Wrappers
  import opened Text
  import opened Stamps

  /**
   * VideoInfo without its frame rate (a double). A new VideoInfo has zero numbers and null
   * strings.
   */
  datatype VideoInfo = VideoInfo(duration: Int32, width: Int32, height: Int32, resolution: Option<string>,
                                 format: Option<string>, codec: Option<string>, bitrate: int)

  const BLANK_INFO: VideoInfo := VideoInfo(0, 0, 0, None, None, None, 0)

  /** `width + "x" + height`. */
  function Dimensions(width: int, height: int): string
  {
    IntToString(width) + "x" + IntToString(height)
  }

  /** Printed dimensions read back: the text before the 'x' is the width and the text after it the height. */
  lemma DimensionsReadBack(width: int, height: int)
    requires 0 <= width <= INT_MAX && 0 <= height <= INT_MAX
    ensures var s := Dimensions(width, height);
      var i := IndexOf(s, 'x');
      && i == |IntToString(width)|
      && ParseInt(s[..i]) == Some(width)
      && ParseInt(s[i + 1..]) == Some(height)
  {
    var s := Dimensions(width, height);
    var w := IntToString(width);
    assert AllDigits(w);
    assert forall j :: 0 <= j < |w| ==> s[j] == w[j] && IsDigit(w[j]);
    assert s[|w|] == 'x';
    assert s[..|w|] == w;
    assert s[|w| + 1..] == IntToString(height);
    ParseIntOfIntToString(width);
    ParseIntOfIntToString(height);
  }

  /** getResolution: the stored string, or `WxH` computed when none is stored and both sides are positive. */
  function Resolution(info: VideoInfo): (r: Option<string>)
    ensures info.resolution.Some? ==> r == info.resolution
    ensures info.resolution.None? ==> (r.Some? <==> info.width > 0 && info.height > 0)
    ensures info.resolution.None? && r.Some? ==> r.value == Dimensions(info.width, info.height)
  {
    if info.resolution.None? && info.width > 0 && info.height > 0 then Some(Dimensions(info.width, info.height))
    else info.resolution
  }

  /**
   * The format taken from a file name: the text after its last '.', when that dot is not
   * the first character.
   */
  function Extension(name: string): (r: Option<string>)
    ensures r.Some? <==> LastIndexOf(name, '.') > 0
    ensures r.Some? ==> '.' !in r.value && exists i :: 0 < i < |name| && name == name[..i] + "." + r.value
  {
    var dot := LastIndexOf(name, '.');
    if dot > 0 then
      assert name == name[..dot] + "." + name[dot + 1..];
      Some(name[dot + 1..])
    else None
  }

  // ---------------------------------------------------------------- ffprobe

  /** A line with an '=' is a property. */
  predicate IsProperty(line: string)
  {
    IndexOf(line, '=') >= 0
  }

  /** `line.split("=", 2)[0].trim()`: the text before the first '='. */
  function Key(line: string): string
    requires IsProperty(line)
  {
    Trim(line[..IndexOf(line, '=')])
  }

  /** `line.split("=", 2)[1].trim()`: everything after the first '=', later '='s included. */
  function Value(line: string): string
    requires IsProperty(line)
  {
    Trim(line[IndexOf(line, '=') + 1..])
  }

  /** The properties map after the given lines: each property line puts its key, replacing an earlier value. */
  function Properties(lines: seq<string>): map<string, string>
  {
    if lines == [] then map[]
    else
      var earlier := Properties(lines[..|lines| - 1]);
      var line := lines[|lines| - 1];
      if IsProperty(line) then earlier[Key(line) := Value(line)] else earlier
  }

  /** The read loop of getVideoInfo. */
  method ReadProperties(lines: seq<string>) returns (properties: map<string, string>)
    ensures properties == Properties(lines)
  {
    properties := map[];
    var i := 0;
    while i < |lines|
      invariant 0 <= i <= |lines|
      invariant properties == Properties(lines[..i])
    {
      var line := lines[i];
      assert lines[..i + 1][..i] == lines[..i];
      if IsProperty(line) {
        properties := properties[Key(line) := Value(line)];
      }
      i := i + 1;
    }
    assert lines[..|lines|] == lines;
  }

  /** A key is in the map exactly when some property line has it. */
  lemma {:induction false} PropertyKeys(lines: seq<string>, key: string)
    ensures key in Properties(lines) <==> exists i :: 0 <= i < |lines| && IsProperty(lines[i]) && Key(lines[i]) == key
    decreases |lines|
  {
    if lines != [] {
      var front := lines[..|lines| - 1];
      PropertyKeys(front, key);
      if exists i :: 0 <= i < |front| && IsProperty(front[i]) && Key(front[i]) == key {
        var i :| 0 <= i < |front| && IsProperty(front[i]) && Key(front[i]) == key;
        assert lines[i] == front[i];
      }
      if exists i :: 0 <= i < |lines| && IsProperty(lines[i]) && Key(lines[i]) == key {
        var i :| 0 <= i < |lines| && IsProperty(lines[i]) && Key(lines[i]) == key;
        if i < |front| {
          assert front[i] == lines[i];
        }
      }
    }
  }

  /** The last line with a key decides its value. */
  lemma {:induction false} LastPropertyWins(lines: seq<string>, i: nat)
    requires i < |lines| && IsProperty(lines[i])
    requires forall j :: i < j < |lines| && IsProperty(lines[j]) ==> Key(lines[j]) != Key(lines[i])
    ensures Key(lines[i]) in Properties(lines) && Properties(lines)[Key(lines[i])] == Value(lines[i])
    decreases |lines|
  {
    if i < |lines| - 1 {
      var front := lines[..|lines| - 1];
      assert front[i] == lines[i];
      forall j | i < j < |front| && IsProperty(front[j])
        ensures Key(front[j]) != Key(front[i])
      {
        assert front[j] == lines[j];
      }
      LastPropertyWins(front, i);
    }
  }

  /**
   * The VideoInfo getVideoInfo builds from the properties map and the file name; None where
   * it throws. `duration` is `(int) Math.round(Double.parseDouble(...))` of the duration
   * property (None where that text is not a number) and `frameRateParses` says whether the
   * r_frame_rate text parses as doubles: both are floating point and come in as parameters.
   */
  function InfoOfProperties(properties: map<string, string>, name: string, duration: Option<Int32>,
                            frameRateParses: bool): (r: Option<VideoInfo>)
    ensures r.Some? ==> (r.value.resolution.Some? <==> r.value.width > 0 && r.value.height > 0)
    ensures r.Some? && r.value.resolution.Some? ==> r.value.resolution.value == Dimensions(r.value.width, r.value.height)
    ensures r.Some? ==> r.value.format == Extension(name)
    ensures r.Some? ==> Some(r.value.width as int) == (if "width" in properties then ParseInt(properties["width"]) else Some(0))
    ensures r.Some? ==> Some(r.value.height as int) == (if "height" in properties then ParseInt(properties["height"]) else Some(0))
    ensures r.None? <==>
      || ("width" in properties && ParseInt(properties["width"]).None?)
      || ("height" in properties && ParseInt(properties["height"]).None?)
      || ("duration" in properties && duration.None?)
      || ("bit_rate" in properties && ParseLong(properties["bit_rate"]).None?)
      || ("r_frame_rate" in properties && !frameRateParses)
  {
    var width := if "width" in properties then ParseInt(properties["width"]) else Some(0);
    var height := if "height" in properties then ParseInt(properties["height"]) else Some(0);
    var seconds := if "duration" in properties then duration else Some(0);
    var bitrate := if "bit_rate" in properties then ParseLong(properties["bit_rate"]) else Some(0);
    if width.None? || height.None? || seconds.None? || bitrate.None? || ("r_frame_rate" in properties && !frameRateParses) then None
    else
      var w: Int32 := width.value;
      var h: Int32 := height.value;
      var codec := if "codec_name" in properties then Some(properties["codec_name"]) else None;
      Some(VideoInfo(seconds.value, w, h, if w > 0 && h > 0 then Some(Dimensions(w, h)) else None,
                     Extension(name), codec, bitrate.value))
  }

  /**
   * getVideoInfo: null when the file is missing, when ffprobe cannot be run (exit None) or
   * exits non-zero, and where reading a property throws.
   */
  function ProbeInfo(fileExists: bool, name: string, lines: seq<string>, exit: Option<int>,
                     duration: Option<Int32>, frameRateParses: bool): (r: Option<VideoInfo>)
    ensures r.Some? ==> fileExists && exit == Some(0)
  {
    if !fileExists || exit != Some(0) then None
    else InfoOfProperties(Properties(lines), name, duration, frameRateParses)
  }

  method GetVideoInfo(fileExists: bool, name: string, lines: seq<string>, exit: Option<int>,
                      duration: Option<Int32>, frameRateParses: bool) returns (info: Option<VideoInfo>)
    ensures info == ProbeInfo(fileExists, name, lines, exit, duration, frameRateParses)
  {
    if !fileExists || exit.None? {
      return None;
    }
    var properties := ReadProperties(lines);
    if exit.value != 0 {
      return None;
    }
    info := InfoOfProperties(properties, name, duration, frameRateParses);
  }

  // ---------------------------------------------------------------- ffmpeg banner

  /** `n` digits at index `i`. */
  predicate DigitsAt(line: string, i: int, n: nat)
  {
    0 <= i && i + n <= |line| && AllDigits(line[i..i + n])
  }

  /** `(\d{a})x(\d{b})` at index `i`, with the two numbers it captures. */
  function Attempt(line: string, i: int, a: nat, b: nat): Option<(nat, nat)>
  {
    if DigitsAt(line, i, a) && i + a < |line| && line[i + a] == 'x' && DigitsAt(line, i + a + 1, b) then
      Some((DigitsValue(line[i..i + a]), DigitsValue(line[i + a + 1..i + a + 1 + b])))
    else None
  }

  lemma {:induction false} DigitsBound(s: string)
    requires AllDigits(s)
    ensures DigitsValue(s) < Power10(|s|)
    decreases |s|
  {
    if s != [] {
      DigitsBound(s[..|s| - 1]);
    }
  }

  function Power10(n: nat): nat
  {
    if n == 0 then 1 else 10 * Power10(n - 1)
  }

  /**
   * `(\d{3,4})x(\d{3,4})` at index `i`: the greedy quantifiers try four digits before three,
   * the first group before the second.
   */
  function ResolutionAt(line: string, i: int): Option<(nat, nat)>
  {
    var tries := [Attempt(line, i, 4, 4), Attempt(line, i, 4, 3), Attempt(line, i, 3, 4), Attempt(line, i, 3, 3)];
    if tries[0].Some? then tries[0] else if tries[1].Some? then tries[1] else if tries[2].Some? then tries[2] else tries[3]
  }

  /** `Matcher.find()` for the resolution pattern from index `from`: the leftmost match. */
  function FindResolutionFrom(line: string, from: nat): (r: Option<(nat, nat)>)
    ensures r.None? <==> forall j :: from <= j < |line| ==> ResolutionAt(line, j).None?
    ensures r.Some? ==> exists j :: from <= j < |line| && ResolutionAt(line, j) == r
    decreases |line| - from
  {
    if from >= |line| then None
    else if ResolutionAt(line, from).Some? then ResolutionAt(line, from)
    else FindResolutionFrom(line, from + 1)
  }

  /** One banner line: a Duration stamp sets the duration; a "Video:" line with WxH sets the size. */
  function BannerStep(info: VideoInfo, line: string): VideoInfo
  {
    var timed := match ParseStamp(line, DURATION_PREFIX)
      case Some(seconds) => info.(duration := seconds)
      case None => info;
    if !Contains(line, "Video:") then timed
    else match FindResolutionFrom(line, 0)
      case Some((w, h)) =>
        assert w < 10000 && h < 10000 by { ResolutionBound(line, 0); }
        timed.(width := w, height := h, resolution := Some(Dimensions(w, h)))
      case None => timed
  }

  lemma ResolutionBound(line: string, from: nat)
    ensures var r := FindResolutionFrom(line, from); r.Some? ==> r.value.0 < 10000 && r.value.1 < 10000
  {
    var r := FindResolutionFrom(line, from);
    if r.Some? {
      var j :| from <= j < |line| && ResolutionAt(line, j) == r;
      AttemptBound(line, j, 4, 4);
      AttemptBound(line, j, 4, 3);
      AttemptBound(line, j, 3, 4);
      AttemptBound(line, j, 3, 3);
    }
  }

  lemma AttemptBound(line: string, i: int, a: nat, b: nat)
    requires a <= 4 && b <= 4
    ensures var r := Attempt(line, i, a, b); r.Some? ==> r.value.0 < 10000 && r.value.1 < 10000
  {
    if Attempt(line, i, a, b).Some? {
      DigitsBound(line[i..i + a]);
      DigitsBound(line[i + a + 1..i + a + 1 + b]);
      assert Power10(a) <= 10000 && Power10(b) <= 10000 by { PowerMonotone(a, 4); PowerMonotone(b, 4); }
    }
  }

  lemma {:induction false} PowerMonotone(a: nat, b: nat)
    requires a <= b
    ensures Power10(a) <= Power10(b)
    decreases b
  {
    if a < b {
      PowerMonotone(a, b - 1);
    }
  }

  /** The VideoInfo after the given banner lines. */
  function Banner(lines: seq<string>): VideoInfo
  {
    if lines == [] then BLANK_INFO else BannerStep(Banner(lines[..|lines| - 1]), lines[|lines| - 1])
  }

  /** A resolution read from the banner is the printed width and height, each below 10000. */
  predicate BannerSizeConsistent(info: VideoInfo)
  {
    && 0 <= info.width < 10000 && 0 <= info.height < 10000
    && (info.resolution.Some? ==> info.resolution.value == Dimensions(info.width, info.height))
    && 0 <= info.duration <= 99 * 3600 + 99 * 60 + 99
  }

  lemma {:induction false} BannerKeepsConsistent(lines: seq<string>)
    ensures BannerSizeConsistent(Banner(lines))
    decreases |lines|
  {
    if lines != [] {
      BannerKeepsConsistent(lines[..|lines| - 1]);
      ResolutionBound(lines[|lines| - 1], 0);
    }
  }

  /**
   * getVideoInfoFFmpeg: null when the file is missing or ffmpeg cannot be run; otherwise the
   * banner's duration and size, and the format from the file name.
   */
  method GetVideoInfoFFmpeg(fileExists: bool, name: string, started: bool, lines: seq<string>)
    returns (info: Option<VideoInfo>)
    ensures info.Some? <==> fileExists && started
    ensures info.Some? ==> info.value == Banner(lines).(format := Extension(name))
  {
    if !fileExists || !started {
      return None;
    }
    var current := BLANK_INFO;
    var i := 0;
    while i < |lines|
      invariant 0 <= i <= |lines|
      invariant current == Banner(lines[..i])
    {
      var line := lines[i];
      assert lines[..i + 1][..i] == lines[..i];
      var seconds := ParseStamp(line, DURATION_PREFIX);
      if seconds.Some? {
        current := current.(duration := seconds.value);
      }
      if Contains(line, "Video:") {
        var found := FindResolutionFrom(line, 0);
        if found.Some? {
          ResolutionBound(line, 0);
          var (w, h) := found.value;
          current := current.(width := w, height := h, resolution := Some(Dimensions(w, h)));
        }
      }
      i := i + 1;
    }
    assert lines[..|lines|] == lines;
    current := current.(format := Extension(name));
    return Some(current);
  }
}
