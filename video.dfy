/** model/Video.java: the display helpers of an uploaded video that do integer arithmetic only. */
module Video {
  import opened Wrappers
  import opened Text
  import opened Clock

  /**
   * getDurationFormatted: "00:00" for a duration that is not positive; otherwise hours,
   * minutes and seconds, each at least two digits, with the hours shown only when there are any.
   */
  function DurationFormatted(duration: Int32): (r: string)
    ensures |r| >= 5
  {
    if duration <= 0 then "00:00"
    else
      var hours := duration / 3600;
      var minutes := (duration % 3600) / 60;
      var seconds := duration % 60;
      if hours > 0 then Pad2(hours) + [COLON] + Pad2(minutes) + [COLON] + Pad2(seconds)
      else Pad2(minutes) + [COLON] + Pad2(seconds)
  }

  /**
   * The display reads back as the duration (a non-positive one as zero): three fields from
   * one hour on, two below it, with minutes and seconds below 60.
   */
  lemma DurationReadsBack(duration: Int32)
    ensures var f := Fields(DurationFormatted(duration));
            f.Some? && |f.value| == (if duration >= 3600 then 3 else 2) &&
            f.value[|f.value| - 1] < 60 && f.value[|f.value| - 2] < 60 &&
            Seconds(f.value) == (if duration <= 0 then 0 else duration)
  {
    if duration <= 0 {
      assert Pad2(0) == "00";
      assert DurationFormatted(duration) == Pad2(0) + [COLON] + Pad2(0);
      TwoFields(0, 0);
      SecondsOfTwo(0, 0);
    } else {
      HoursMinutesSeconds(duration);
      if duration >= 3600 {
        ThreeFields(duration / 3600, (duration % 3600) / 60, duration % 60);
      } else {
        assert duration % 3600 == duration;
        TwoFields(duration / 60, duration % 60);
      }
    }
  }

  /**
   * getFileSizeFormatted below 1024 bytes: the exact number and " B". Larger sizes are
   * printed with two decimals and are None here.
   */
  function FileSizeInBytes(size: int): (r: Option<string>)
    ensures r.Some? <==> size < 1024
    ensures r.Some? ==> |r.value| >= 3 && r.value[|r.value| - 2..] == " B"
  {
    if size < 1024 then Some(IntToString(size) + " B") else None
  }

  /** The byte count printed for a small file parses back to the size. */
  lemma FileSizeReadsBack(size: int)
    requires LONG_MIN <= size < 1024
    ensures var t := FileSizeInBytes(size).value;
            ParseLong(t[..|t| - 2]) == Some(size)
  {
    var t := FileSizeInBytes(size).value;
    assert t[..|t| - 2] == IntToString(size);
    ParseBoundedOfIntToString(size, LONG_MIN, LONG_MAX);
  }
}
