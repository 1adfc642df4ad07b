/**
 * The encoder parameters `process_job` derives from a job, and how
 * `run_ffmpeg` turns the encoder's behaviour into an exception or none.
 */
module Encoding {
  import opened Optional
  import Text

  /** Resolution tiers that scale the picture (video_to_mp4's copy; the other copy lacks "4K"). */
  const ScaledTiers: seq<string> := ["4K", "1080p", "720p", "480p"]

  /** video_to_mp4's `stream.filter("scale", -1, h)` chain: the target height, or None for no scaling. */
  function ScaleHeightWith4K(resolution: string): (h: Option<nat>)
    ensures h.Some? <==> resolution in ScaledTiers
    ensures resolution == "4K" ==> h == Some(2160)
    ensures h.Some? && resolution != "4K" ==> resolution == Text.Decimal(h.value) + "p"
  {
    if resolution == "4K" then Some(2160) else ScaleHeight(resolution)
  }

  /** reflex_video_converter's chain: only "1080p", "720p" and "480p" scale; anything else, "4K" included, does not. */
  function ScaleHeight(resolution: string): (h: Option<nat>)
    ensures h.Some? <==> resolution in ScaledTiers[1..]
    ensures h.Some? ==> resolution == Text.Decimal(h.value) + "p"
  {
    assert Text.Decimal(1080) == "1080" && Text.Decimal(720) == "720" && Text.Decimal(480) == "480";
    if resolution == "1080p" then Some(1080)
    else if resolution == "720p" then Some(720)
    else if resolution == "480p" then Some(480)
    else None
  }

  /** The two copies' tables differ only in "4K". */
  lemma ScaleTablesDifferOnlyIn4K(resolution: string)
    ensures resolution != "4K" ==> ScaleHeight(resolution) == ScaleHeightWith4K(resolution)
    ensures ScaleHeight("4K") == None && ScaleHeightWith4K("4K") == Some(2160)
  {
  }

  /** x264 presets from fastest to slowest. */
  const Presets: seq<string> :=
    ["ultrafast", "superfast", "veryfast", "faster", "fast", "medium", "slow", "slower", "veryslow"]

  datatype RateControl = RateControl(crf: nat, preset: string)

  /** The quality table: Standard, High and Maximum; anything else gets x264's defaults. */
  function RateControlFor(quality: string): (rc: RateControl)
    ensures rc.preset in Presets && rc.crf <= 51
    ensures quality !in ["Standard", "High", "Maximum"] ==> rc == RateControl(23, "medium")
  {
    if quality == "High" then RateControl(18, "slow")
    else if quality == "Maximum" then RateControl(15, "veryslow")
    else if quality == "Standard" then RateControl(28, "fast")
    else RateControl(23, "medium")
  }

  /**
   * The tiers are ordered: from Standard (28, fast) through the default
   * (23, medium) and High (18, slow) to Maximum (15, veryslow), the quality
   * factor falls (better picture) and the preset moves to a slower place in
   * the list of presets.
   */
  lemma QualityTiersOrdered()
    ensures var tiers := [RateControlFor("Standard"), RateControlFor("Other"),
                          RateControlFor("High"), RateControlFor("Maximum")];
            var places := [4, 5, 6, 8];
      && [tiers[0].crf, tiers[1].crf, tiers[2].crf, tiers[3].crf] == [28, 23, 18, 15]
      && (forall k :: 0 <= k < |tiers| ==> tiers[k].preset == Presets[places[k]])
      && (forall k :: 0 < k < |tiers| ==> tiers[k].crf < tiers[k - 1].crf && places[k - 1] < places[k])
  {
  }

  /** What `process_job` hands to `run_ffmpeg`. */
  datatype Plan = Plan(
    input: string,
    output: string,
    scaleHeight: Option<nat>,
    rate: RateControl,
    videoCodec: string,
    audioCodec: string,
    progressPipe: bool)

  /** `if duration_seconds and duration_seconds > 0`: only then is progress streamed. */
  predicate ProgressMode(duration: Option<real>) {
    duration.Some? && duration.value > 0.0
  }

  function PlanFor(input: string, output: string, scaleHeight: Option<nat>, quality: string,
                   duration: Option<real>): (p: Plan)
    ensures p.videoCodec == "libx264" && p.audioCodec == "aac"
    ensures p.progressPipe <==> ProgressMode(duration)
  {
    Plan(input, output, scaleHeight, RateControlFor(quality), "libx264", "aac", ProgressMode(duration))
  }

  /** `str(e)` of the ffmpeg-python error `stream.run` raises on a nonzero exit. */
  const FfmpegErrorText: string := "ffmpeg error (see stderr output for detail)"

  /**
   * The exception `run_ffmpeg` raises, if any. Starting the encoder can fail
   * either way. Without progress, `stream.run` raises on a nonzero exit;
   * with progress, the exit status is never read (`process.wait()`).
   */
  function EncoderFailure(progressPipe: bool, launchError: Option<string>, exitCode: int): Option<string> {
    if launchError.Some? then launchError
    else if !progressPipe && exitCode != 0 then Some(FfmpegErrorText)
    else None
  }

  /** With progress streamed, a failing encoder goes unnoticed; without it, it raises. */
  lemma ExitStatusReadOnlyWithoutProgress(progressPipe: bool, exitCode: int)
    ensures EncoderFailure(progressPipe, None, exitCode).Some? <==> !progressPipe && exitCode != 0
  {
  }
}
