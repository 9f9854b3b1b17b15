/** model/ConversionSettings.java: the parameters of one conversion, as a mutable bean. */
module Settings {
  import opened Wrappers
  import opened Text

  const DEFAULT_CODEC: string := "libx264"
  const DEFAULT_FRAME_RATE: Int32 := 30
  const DEFAULT_QUALITY: string := "medium"

  /** The value held by a ConversionSettings object; None stands for a null field. */
  datatype Params = Params(
    outputFormat: Option<string>,
    outputResolution: Option<string>,
    quality: Option<string>,
    videoBitrate: Option<string>,
    audioBitrate: Option<string>,
    codec: Option<string>,
    frameRate: Int32,
    startTime: Option<Int32>,
    endTime: Option<Int32>)

  /** The video and audio bitrates a quality name selects; unknown names get the medium pair. */
  function PresetBitrates(quality: string): (rates: (string, string))
    ensures rates in {("2500k", "192k"), ("1500k", "128k"), ("800k", "96k")}
    ensures rates.0 == "2500k" <==> ToLower(quality) == "high"
    ensures rates.0 == "800k" <==> ToLower(quality) == "low"
  {
    match ToLower(quality)
    case "high" => ("2500k", "192k")
    case "medium" => ("1500k", "128k")
    case "low" => ("800k", "96k")
    case _ => ("1500k", "128k")
  }

  /**
   * The effect of applyQualityPreset on a settings value: None when the quality is null
   * (the `quality.toLowerCase()` call throws), otherwise the value with both bitrates set.
   */
  function ApplyPreset(p: Params): (r: Option<Params>)
    ensures r.None? <==> p.quality.None?
    ensures r.Some? ==> r.value == p.(videoBitrate := Some(PresetBitrates(p.quality.value).0),
                                      audioBitrate := Some(PresetBitrates(p.quality.value).1))
  {
    match p.quality
    case None => None
    case Some(q) =>
      var (v, a) := PresetBitrates(q);
      Some(p.(videoBitrate := Some(v), audioBitrate := Some(a)))
  }

  /** Applying the preset a second time changes nothing. */
  lemma ApplyPresetIdempotent(p: Params)
    requires p.quality.Some?
    ensures ApplyPreset(p).Some? && ApplyPreset(ApplyPreset(p).value) == ApplyPreset(p)
  {
  }

  /** The preset ignores the case of the quality name, and only three bitrate pairs exist. */
  lemma PresetBitratesCaseInsensitive(q: string)
    ensures PresetBitrates(ToUpper(q)) == PresetBitrates(q)
    ensures PresetBitrates(q) in {("2500k", "192k"), ("1500k", "128k"), ("800k", "96k")}
  {
    LowerOfUpper(q);
  }

  /** isValid on a settings value: a non-blank format, start before end when both are set, 1 <= frameRate <= 120. */
  predicate ValidParams(p: Params)
  {
    && p.outputFormat.Some? && !IsBlank(p.outputFormat.value)
    && !(p.startTime.Some? && p.endTime.Some? && p.startTime.value >= p.endTime.value)
    && 0 < p.frameRate <= 120
  }

  class ConversionSettings {
    var outputFormat: Option<string>
    var outputResolution: Option<string>
    var quality: Option<string>
    var videoBitrate: Option<string>
    var audioBitrate: Option<string>
    var codec: Option<string>
    var frameRate: Int32
    var startTime: Option<Int32>
    var endTime: Option<Int32>

    function Value(): Params
      reads this
    {
      Params(outputFormat, outputResolution, quality, videoBitrate, audioBitrate,
             codec, frameRate, startTime, endTime)
    }

    /** The no-argument constructor: codec libx264, 30 fps, medium quality, all else null. */
    constructor ()
      ensures Value() == Params(None, None, Some(DEFAULT_QUALITY), None, None,
                                Some(DEFAULT_CODEC), DEFAULT_FRAME_RATE, None, None)
    {
      outputFormat, outputResolution, videoBitrate, audioBitrate := None, None, None, None;
      startTime, endTime := None, None;
      codec := Some(DEFAULT_CODEC);
      frameRate := DEFAULT_FRAME_RATE;
      quality := Some(DEFAULT_QUALITY);
    }

    /** The three-argument constructor: the defaults, then format, resolution and quality. */
    constructor Basic(outputFormat: Option<string>, outputResolution: Option<string>, quality: Option<string>)
      ensures Value() == Params(outputFormat, outputResolution, quality, None, None,
                                Some(DEFAULT_CODEC), DEFAULT_FRAME_RATE, None, None)
    {
      this.videoBitrate, this.audioBitrate := None, None;
      this.startTime, this.endTime := None, None;
      this.codec := Some(DEFAULT_CODEC);
      this.frameRate := DEFAULT_FRAME_RATE;
      this.outputFormat := outputFormat;
      this.outputResolution := outputResolution;
      this.quality := quality;
    }

    /** The full constructor stores every argument as given; no default applies. */
    constructor Full(p: Params)
      ensures Value() == p
    {
      outputFormat, outputResolution, quality := p.outputFormat, p.outputResolution, p.quality;
      videoBitrate, audioBitrate, codec := p.videoBitrate, p.audioBitrate, p.codec;
      frameRate, startTime, endTime := p.frameRate, p.startTime, p.endTime;
    }

    /** Replaces every field (the setters, used together). */
    method Assign(p: Params)
      modifies this
      ensures Value() == p
    {
      outputFormat, outputResolution, quality := p.outputFormat, p.outputResolution, p.quality;
      videoBitrate, audioBitrate, codec := p.videoBitrate, p.audioBitrate, p.codec;
      frameRate, startTime, endTime := p.frameRate, p.startTime, p.endTime;
    }

    /**
     * applyQualityPreset: sets the two bitrates from the quality name. `ok` is false when
     * the quality is null, where the Java code throws a NullPointerException and changes nothing.
     */
    method ApplyQualityPreset() returns (ok: bool)
      modifies this
      ensures ok <==> old(quality).Some?
      ensures ok ==> Value() == ApplyPreset(old(Value())).value
      ensures !ok ==> Value() == old(Value())
    {
      if quality.None? {
        return false;
      }
      var rates := PresetBitrates(quality.value);
      videoBitrate := Some(rates.0);
      audioBitrate := Some(rates.1);
      return true;
    }

    /** isTrimEnabled: either trim bound is set. */
    predicate IsTrimEnabled()
      reads this
    {
      startTime.Some? || endTime.Some?
    }

    /** getTrimDuration: `endTime - startTime` in Java int arithmetic when both are set. */
    function TrimDuration(): (d: Option<Int32>)
      reads this
      ensures d.Some? <==> startTime.Some? && endTime.Some?
      ensures d.Some? && 0 <= startTime.value && 0 <= endTime.value ==>
                d.value == endTime.value - startTime.value
    {
      if startTime.Some? && endTime.Some? then Some(Wrap32(endTime.value - startTime.value)) else None
    }

    /** isValid, on the object's current value. */
    predicate IsValid()
      reads this
    {
      ValidParams(Value())
    }
  }

  /** Valid settings whose trim bounds are non-negative have a positive trim duration. */
  lemma ValidTrimIsPositive(s: ConversionSettings)
    requires s.IsValid() && s.startTime.Some? && s.endTime.Some?
    requires s.startTime.value >= 0
    ensures s.TrimDuration().Some? && s.TrimDuration().value > 0
  {
  }

  /**
   * With a negative start the int subtraction can overflow: start -2 and end INT_MAX
   * pass isValid, yet getTrimDuration is negative.
   */
  lemma ValidTrimCanOverflow(s: ConversionSettings)
    requires s.outputFormat == Some("mp4") && s.frameRate == 30
    requires s.startTime == Some(-2) && s.endTime == Some(INT_MAX)
    ensures s.IsValid()
    ensures s.TrimDuration() == Some(INT_MIN + 1)
  {
    TrimKeepsUntrimmable("mp4");
    assert s.TrimDuration() == Some(Wrap32(INT_MAX + 2));
    WrapJustPastMax();
  }

  /** Two past INT_MAX wraps to one past INT_MIN. */
  lemma WrapJustPastMax()
    ensures Wrap32(INT_MAX + 2) == INT_MIN + 1
  {
    var x := INT_MAX + 2 - INT_MIN;
    assert x == 0x1_0000_0000 + 1;
    assert x % 0x1_0000_0000 == 1;
  }

  /** Settings from the no-argument constructor become valid as soon as a non-blank format is set. */
  lemma DefaultsValidOnceFormatSet(s: ConversionSettings, format: string)
    requires s.Value() == Params(Some(format), None, Some(DEFAULT_QUALITY), None, None,
                                 Some(DEFAULT_CODEC), DEFAULT_FRAME_RATE, None, None)
    requires !IsBlank(format)
    ensures s.IsValid() && !s.IsTrimEnabled() && s.TrimDuration().None?
  {
  }
}
