/** `download_youtube`: the yt-dlp options chosen by format, the name of the
    file the download leaves behind, and the failure report. yt-dlp itself is
    not modelled: an extraction is an input that either names the prepared
    file or carries the exception's text. */
module YouTube {
  import opened Text
  import opened Storage

  /** A value in the `ydl_opts` dictionary. */
  datatype OptValue =
    | Str(s: string)
    | Flag(b: bool)
    | Processors(steps: seq<PostProcessor>)

  /** One entry of the `postprocessors` list. */
  datatype PostProcessor = PostProcessor(key: string, preferredCodec: string, preferredQuality: string)

  const OutTemplate := InDownloads("%(title)s.%(ext)s")
  const AudioSelector := "bestaudio/best"
  const VideoSelector := "bestvideo[ext=mp4]+bestaudio[ext=m4a]/best[ext=mp4]/best"
  const ExtractMp3 := PostProcessor("FFmpegExtractAudio", "mp3", "192")

  /** The options every download starts from. */
  const BaseKeys := {"outtmpl", "quiet", "no_warnings"}

  /** Builds `ydl_opts` as the source does: the three base entries, then the
      audio entries merged in for `mp3` or the video selector for any other
      format. */
  method BuildOptions(fmt: string) returns (opts: map<string, OptValue>)
    ensures opts.Keys == BaseKeys + {"format"} + (if fmt == "mp3" then {"postprocessors"} else {})
    ensures opts["outtmpl"] == Str(OutTemplate)
    ensures opts["quiet"] == Flag(true) && opts["no_warnings"] == Flag(true)
    ensures opts["format"] == Str(if fmt == "mp3" then AudioSelector else VideoSelector)
    ensures "postprocessors" in opts <==> fmt == "mp3"
    ensures "postprocessors" in opts ==>
              var p := opts["postprocessors"];
              p.Processors? && |p.steps| == 1 && p.steps[0].key == "FFmpegExtractAudio"
              && p.steps[0].preferredCodec == "mp3" && p.steps[0].preferredQuality == "192"
  {
    opts := map["outtmpl" := Str(OutTemplate), "quiet" := Flag(true), "no_warnings" := Flag(true)];
    if fmt == "mp3" {
      opts := opts + map["format" := Str(AudioSelector), "postprocessors" := Processors([ExtractMp3])];
    } else {
      opts := opts["format" := Str(VideoSelector)];
    }
  }

  /** `filename.rsplit(".", 1)[0] + ".mp3"`: the prepared name with its last
      extension, if any, replaced by `.mp3`. */
  function Mp3Name(filename: string): (r: string)
    ensures EndsWith(r, ".mp3")
    ensures '.' !in filename ==> r == filename + ".mp3"
    ensures StartsWith(filename, r[..|r| - 4])
  {
    var i := RFind(filename, '.');
    (if i < 0 then filename else filename[..i]) + ".mp3"
  }

  /** The last extension is the one replaced; dots earlier in the name stay. */
  lemma Mp3NameReplacesExtension(stem: string, ext: string)
    requires '.' !in ext
    ensures Mp3Name(stem + "." + ext) == stem + ".mp3"
  {
    RFindBefore(stem, '.', ext);
    assert stem + "." + ext == stem + ['.'] + ext;
    assert (stem + ['.'] + ext)[..|stem|] == stem;
  }

  /** The extension `Mp3Name` writes is the codec the audio options ask the
      extractor for, so the returned path names the file the extractor
      produces. */
  lemma Mp3NameMatchesCodec(filename: string)
    ensures EndsWith(Mp3Name(filename), "." + ExtractMp3.preferredCodec)
  {
  }

  datatype Extraction =
    | Extracted(preparedName: string)   // ydl.prepare_filename(info)
    | ExtractionFailed(error: string)   // str(e) of the exception raised

  datatype Download =
    | Saved(path: string)
    | Failed(report: string)            // the reply the handler sends, then `None`

  const FailurePrefix := "YouTube download failed: "

  /** The outcome of `download_youtube` for a format and an extraction. */
  function DownloadYouTube(fmt: string, extraction: Extraction): (d: Download)
    ensures d.Saved? <==> extraction.Extracted?
    ensures d.Saved? && fmt != "mp3" ==> d.path == extraction.preparedName
    ensures d.Saved? && fmt == "mp3" ==> d.path == Mp3Name(extraction.preparedName) && EndsWith(d.path, ".mp3")
    ensures d.Failed? ==>
              StartsWith(d.report, FailurePrefix)
              && |d.report| == |FailurePrefix| + (if |extraction.error| <= 200 then |extraction.error| else 200)
              && StartsWith(extraction.error, d.report[|FailurePrefix|..])
  {
    match extraction
    case Extracted(name) => Saved(if fmt == "mp3" then Mp3Name(name) else name)
    case ExtractionFailed(e) => Failed(FailurePrefix + Truncate(e, 200))
  }

  /** An error text of at most 200 characters is reported whole. */
  lemma ShortErrorReportedWhole(fmt: string, e: string)
    requires |e| <= 200
    ensures DownloadYouTube(fmt, ExtractionFailed(e)) == Failed(FailurePrefix + e)
  {
  }
}
