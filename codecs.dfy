/** The codec tables of FFmpegWrapper: which video and audio encoders a container gets. */
module Codecs {
  import opened Wrappers
  import opened Text

  /** isCodecCompatibleWithFormat: WebM and MP4 restrict the video codec; other containers do not. */
  predicate IsCodecCompatible(codec: string, format: string)
  {
    if EqualsIgnoreCase(format, "webm") then
      Contains(codec, "vp8") || Contains(codec, "vp9") || Contains(codec, "av1") || Contains(codec, "libvpx")
    else if EqualsIgnoreCase(format, "mp4") then
      Contains(codec, "264") || Contains(codec, "265") || Contains(codec, "mpeg4")
      || Contains(codec, "h264") || Contains(codec, "h265")
    else true
  }

  /** The switch of getVideoCodecForFormat, used when no compatible preference is given. */
  function DefaultVideoCodec(format: string): (codec: string)
    ensures codec in {"libvpx-vp9", "libx264", "mpeg4", "flv1"}
    ensures ToLower(format) == "webm" <==> codec == "libvpx-vp9"
    ensures ToLower(format) == "avi" <==> codec == "mpeg4"
    ensures ToLower(format) == "flv" <==> codec == "flv1"
  {
    match ToLower(format)
    case "webm" => "libvpx-vp9"
    case "mp4" => "libx264"
    case "m4v" => "libx264"
    case "mkv" => "libx264"
    case "avi" => "mpeg4"
    case "mov" => "libx264"
    case "flv" => "flv1"
    case _ => "libx264"
  }

  /** The preferred codec is non-null, non-empty and compatible with the container. */
  predicate PreferenceUsable(format: string, preferred: Option<string>)
  {
    preferred.Some? && preferred.value != "" && IsCodecCompatible(preferred.value, format)
  }

  /**
   * getVideoCodecForFormat: the preferred codec when it is usable, otherwise the
   * container's default.
   */
  function VideoCodecForFormat(format: string, preferred: Option<string>): (codec: string)
    ensures PreferenceUsable(format, preferred) ==> codec == preferred.value
    ensures codec != DefaultVideoCodec(format) ==>
              preferred.Some? && codec == preferred.value && codec != "" && IsCodecCompatible(codec, format)
  {
    if PreferenceUsable(format, preferred) then preferred.value else DefaultVideoCodec(format)
  }

  /** getAudioCodecForFormat: libopus for WebM, mp3 for AVI and FLV, aac for everything else. */
  function AudioCodecForFormat(format: string): (codec: string)
    ensures ToLower(format) == "webm" ==> codec == "libopus"
    ensures ToLower(format) in {"avi", "flv"} ==> codec == "mp3"
    ensures ToLower(format) !in {"webm", "avi", "flv"} ==> codec == "aac"
  {
    match ToLower(format)
    case "webm" => "libopus"
    case "mp4" => "aac"
    case "m4v" => "aac"
    case "mov" => "aac"
    case "mkv" => "aac"
    case "avi" => "mp3"
    case "flv" => "mp3"
    case _ => "aac"
  }

  /** Every codec the selection can return is accepted by the compatibility check. */
  lemma ChosenCodecIsCompatible(format: string, preferred: Option<string>)
    ensures IsCodecCompatible(VideoCodecForFormat(format, preferred), format)
  {
    var codec := VideoCodecForFormat(format, preferred);
    if codec == DefaultVideoCodec(format) {
      if EqualsIgnoreCase(format, "webm") {
        assert codec == "libvpx-vp9";
        assert OccursAt(codec, "vp9", 7);
      } else if EqualsIgnoreCase(format, "mp4") {
        assert ToLower(format) == "mp4";
        assert codec == "libx264";
        assert OccursAt(codec, "264", 4);
      }
    }
  }

  /** An incompatible preference is ignored: a WebM output never gets an H.264 encoder. */
  lemma WebmRejectsX264()
    ensures VideoCodecForFormat("webm", Some("libx264")) == "libvpx-vp9"
    ensures VideoCodecForFormat("WEBM", Some("libvpx")) == "libvpx"
  {
    var c := "libx264";
    assert !Contains(c, "vp8") && !Contains(c, "vp9") && !Contains(c, "av1") && !Contains(c, "libvpx") by {
      forall i | 0 <= i <= |c| - 3 ensures !OccursAt(c, "vp8", i) && !OccursAt(c, "vp9", i) && !OccursAt(c, "av1", i) {
        assert c[i..i + 3][0] == c[i];
      }
      forall i | 0 <= i <= |c| - 6 ensures !OccursAt(c, "libvpx", i) {
        assert c[i..i + 6][3] == c[i + 3];
      }
    }
    assert ToLower("WEBM") == "webm";
    assert OccursAt("libvpx", "libvpx", 0);
  }
}
