/** `download_pinterest`: pick the media sources off the pin's page, make
    them absolute, fetch each into `downloads/`, and answer the list of files
    written (image first, then video), or `None`. The HTTP client and the
    HTML parser are not modelled: the page is what `soup.find` can see of it,
    and each fetch is an input that is either the body or a failure. */
module Pinterest {
  import opened Wrappers
  import opened Text
  import opened Storage

  /** The `src` attribute of every `<img>` and every `<video>` tag, in
      document order; `None` for a tag without one. */
  datatype Page = Page(imageSrcs: seq<Option<string>>, videoSrcs: seq<Option<string>>)

  /** The attribute filter of the image search: a `src` that is present and
      contains `.jpg`, `.png` or `pinimg.com` (an empty one contains none). */
  predicate QualifiesAsImage(src: Option<string>) {
    src.Some? && (Contains(src.value, ".jpg") || Contains(src.value, ".png") || Contains(src.value, "pinimg.com"))
  }

  /** A tag without `src`, or with an empty one, never qualifies; one whose
      `src` names a `.jpg` always does. */
  lemma ImageFilterEdges(s: string)
    ensures !QualifiesAsImage(None) && !QualifiesAsImage(Some(""))
    ensures Contains(s, ".jpg") ==> QualifiesAsImage(Some(s))
  {
    assert !StartsWith("", ".jpg") && !StartsWith("", ".png") && !StartsWith("", "pinimg.com");
  }

  /** The position `soup.find` stops at: the first qualifying image, or the
      end of the list. */
  function FirstImage(srcs: seq<Option<string>>): (i: nat)
    ensures i <= |srcs|
    ensures i < |srcs| ==> QualifiesAsImage(srcs[i])
    ensures forall k :: 0 <= k < i ==> !QualifiesAsImage(srcs[k])
  {
    if srcs == [] then 0 else if QualifiesAsImage(srcs[0]) then 0 else 1 + FirstImage(srcs[1..])
  }

  /** The first video tag that has a `src` at all (`{"src": True}`). */
  function FirstVideo(srcs: seq<Option<string>>): (i: nat)
    ensures i <= |srcs|
    ensures i < |srcs| ==> srcs[i].Some?
    ensures forall k :: 0 <= k < i ==> srcs[k].None?
  {
    if srcs == [] then 0 else if srcs[0].Some? then 0 else 1 + FirstVideo(srcs[1..])
  }

  /** The image source the code goes on with, if any. */
  function ImageSrc(page: Page): (src: Option<string>)
    ensures src.Some? <==> exists k :: 0 <= k < |page.imageSrcs| && QualifiesAsImage(page.imageSrcs[k])
    ensures src.Some? ==> Some(src.value) in page.imageSrcs && QualifiesAsImage(src)
  {
    var i := FirstImage(page.imageSrcs);
    if i < |page.imageSrcs| then Some(page.imageSrcs[i].value) else None
  }

  /** The video source the code goes on with, if any. */
  function VideoSrc(page: Page): (src: Option<string>)
    ensures src.Some? <==> exists k :: 0 <= k < |page.videoSrcs| && page.videoSrcs[k].Some?
    ensures src.Some? ==> Some(src.value) in page.videoSrcs
  {
    var i := FirstVideo(page.videoSrcs);
    if i < |page.videoSrcs| then Some(page.videoSrcs[i].value) else None
  }

  /** A source not starting with `http` gets `https:` in front, so a
      protocol-relative `//host/path` becomes `https://host/path`. */
  function Absolute(src: string): string {
    if StartsWith(src, "http") then src else "https:" + src
  }

  /** The normalised source is a URL starting with `http` that ends with the
      source; it is the source itself exactly when that already starts with
      `http`, and otherwise six characters longer. */
  lemma AbsoluteFacts(src: string)
    ensures var u := Absolute(src);
            StartsWith(u, "http") && EndsWith(u, src)
            && (u == src <==> StartsWith(src, "http"))
            && (u != src ==> |u| == |src| + 6)
  {
    var u := Absolute(src);
    if !StartsWith(src, "http") {
      assert u[..4] == "http";
      assert u[6..] == src;
    }
  }

  /** Normalising twice changes nothing more. */
  lemma AbsoluteIdempotent(src: string)
    ensures Absolute(Absolute(src)) == Absolute(src)
  {
    AbsoluteFacts(src);
  }

  /** A protocol-relative source becomes an `https://` URL with the same
      host and path. */
  lemma ProtocolRelativeBecomesHttps(rest: string)
    ensures Absolute("//" + rest) == "https://" + rest
  {
    assert !StartsWith("//" + rest, "http") by {
      assert ("//" + rest)[0] == '/';
    }
  }

  /** `DOWNLOAD_DIR / f"pin_{hash(url)}.<ext>"`, where `key` stands for `hash(url)`. */
  function PinPath(key: int, ext: string): string {
    InDownloads(PinStem(key) + "." + ext)
  }

  function PinStem(key: int): string {
    "pin_" + DecimalString(key)
  }

  /** A pin file sits right under `downloads/`: its stem holds no `/`. */
  lemma PinStemHasNoSlash(key: int)
    ensures '/' !in PinStem(key) && PinStem(key) != []
  {
    var digits := DecimalString(key);
    var stem := PinStem(key);
    forall k | 0 <= k < |stem| ensures stem[k] != '/' {
      if k >= 4 { assert stem[k] == digits[k - 4]; }
    }
  }

  function ImagePath(key: int): string { PinPath(key, "jpg") }

  function VideoPath(key: int): string { PinPath(key, "mp4") }

  /** The two files of one pin never collide. */
  lemma PinPathsDiffer(key: int)
    ensures ImagePath(key) != VideoPath(key)
  {
    PinPathSuffix(key, "jpg");
    PinPathSuffix(key, "mp4");
  }

  /** A pin file carries the suffix of the extension it was named with. */
  lemma PinPathSuffix(key: int, ext: string)
    requires '/' !in ext && '.' !in ext && ext != []
    ensures Suffix(PinPath(key, ext)) == "." + ext
  {
    PinStemHasNoSlash(key);
    PinPathParts(key, ext);
    SuffixOfJoin(DownloadDir, PinStem(key), ext);
  }

  lemma PinPathParts(key: int, ext: string)
    ensures PinPath(key, ext) == DownloadDir + "/" + PinStem(key) + "." + ext
  {
  }

  /** The two media sources `download_pinterest` goes on with. */
  datatype Sources = Sources(image: Option<string>, video: Option<string>)

  function SourcesOf(page: Page): Sources {
    Sources(ImageSrc(page), VideoSrc(page))
  }

  /** Whether the video is fetched at all: it exists, and the image fetch
      before it, if any, did not raise. */
  predicate FetchesVideo(src: Sources, imageBody: Option<Bytes>) {
    src.video.Some? && (src.image.None? || imageBody.Some?)
  }

  /** The media URLs `download_pinterest` requests, in order. */
  function FetchedUrls(src: Sources, imageBody: Option<Bytes>): seq<string> {
    (if src.image.Some? then [Absolute(src.image.value)] else [])
    + (if FetchesVideo(src, imageBody) then [Absolute(src.video.value)] else [])
  }

  /** Where the two media of a pin are saved. */
  datatype Files = Files(image: string, video: string)

  function PinFiles(key: int): Files {
    Files(ImagePath(key), VideoPath(key))
  }

  /** The files `download_pinterest` opens for writing. */
  function WrittenPaths(files: Files, src: Sources, imageBody: Option<Bytes>): set<string> {
    (if src.image.Some? then {files.image} else {})
    + (if FetchesVideo(src, imageBody) then {files.video} else {})
  }

  /** The run answers a list: there is some medium and no fetch raised. */
  predicate Succeeds(src: Sources, imageBody: Option<Bytes>, videoBody: Option<Bytes>) {
    (src.image.Some? || src.video.Some?)
    && (src.image.Some? ==> imageBody.Some?)
    && (src.video.Some? ==> videoBody.Some?)
  }

  /** The list answered on success: the image file, then the video file. */
  function MediaPaths(files: Files, src: Sources): seq<string> {
    (if src.image.Some? then [files.image] else [])
    + (if src.video.Some? then [files.video] else [])
  }

  /** The file a fetch leaves: the body, or nothing when the fetch raised
      after `open(..., "wb")` had already emptied the file. */
  function Content(body: Option<Bytes>): Bytes {
    if body.Some? then body.value else []
  }

  /** One run of `download_pinterest`. `page` is `None` when fetching or
      parsing the page raises; `imageBody` and `videoBody` are the bodies
      the media fetches answer, `None` when a fetch raises. The results are
      the answer, the media URLs fetched in order, and the files written. */
  method DownloadPinterest(key: int, page: Option<Page>, imageBody: Option<Bytes>, videoBody: Option<Bytes>)
    returns (media: Option<seq<string>>, fetched: seq<string>, written: map<string, Bytes>)
    ensures page.None? ==> media.None? && fetched == [] && written == map[]
    ensures page.Some? ==> fetched == FetchedUrls(SourcesOf(page.value), imageBody)
    ensures page.Some? ==> written.Keys == WrittenPaths(PinFiles(key), SourcesOf(page.value), imageBody)
    ensures page.Some? && ImagePath(key) in written ==> written[ImagePath(key)] == Content(imageBody)
    ensures page.Some? && VideoPath(key) in written ==> written[VideoPath(key)] == Content(videoBody)
    ensures page.Some? ==> (media.Some? <==> Succeeds(SourcesOf(page.value), imageBody, videoBody))
    ensures media.Some? ==> page.Some? && media.value == MediaPaths(PinFiles(key), SourcesOf(page.value))
    ensures media.Some? ==> 1 <= |media.value| <= 2 && forall f :: f in media.value ==> f in written
  {
    if page.None? {
      return None, [], map[];
    }
    PinPathsDiffer(key);
    media, fetched, written := FetchMedia(PinFiles(key), SourcesOf(page.value), imageBody, videoBody);
  }

  /** The two fetch blocks of `download_pinterest`, for the sources found. */
  method FetchMedia(files: Files, src: Sources, imageBody: Option<Bytes>, videoBody: Option<Bytes>)
    returns (media: Option<seq<string>>, fetched: seq<string>, written: map<string, Bytes>)
    requires files.image != files.video
    ensures fetched == FetchedUrls(src, imageBody)
    ensures written.Keys == WrittenPaths(files, src, imageBody)
    ensures files.image in written ==> written[files.image] == Content(imageBody)
    ensures files.video in written ==> written[files.video] == Content(videoBody)
    ensures media.Some? <==> Succeeds(src, imageBody, videoBody)
    ensures media.Some? ==> media.value == MediaPaths(files, src)
  {
    fetched, written := [], map[];
    var found: seq<string> := [];
    if src.image.Some? {
      written := written[files.image := []];
      fetched := fetched + [Absolute(src.image.value)];
      if imageBody.None? {
        return None, fetched, written;
      }
      written := written[files.image := imageBody.value];
      found := found + [files.image];
    }
    if src.video.Some? {
      written := written[files.video := []];
      fetched := fetched + [Absolute(src.video.value)];
      if videoBody.None? {
        return None, fetched, written;
      }
      written := written[files.video := videoBody.value];
      found := found + [files.video];
    }
    media := if found == [] then None else Some(found);
  }

  /** On success the files written are exactly the files listed. */
  lemma WrittenAreListed(files: Files, src: Sources, imageBody: Option<Bytes>, videoBody: Option<Bytes>)
    requires Succeeds(src, imageBody, videoBody)
    ensures WrittenPaths(files, src, imageBody) == set f | f in MediaPaths(files, src)
  {
  }

  /** The answer on success lists at most two files, and none only when
      the page offers neither medium. */
  lemma MediaCount(files: Files, src: Sources)
    ensures |MediaPaths(files, src)| <= 2
    ensures MediaPaths(files, src) == [] <==> src.image.None? && src.video.None?
  {
  }

  /** The image, when there is one, comes first and is a `.jpg`. */
  lemma ImageFirst(key: int, src: Sources)
    requires src.image.Some?
    ensures Suffix(MediaPaths(PinFiles(key), src)[0]) == ".jpg"
  {
    assert MediaPaths(PinFiles(key), src)[0] == ImagePath(key);
    ImageSuffix(key);
  }

  /** The video, when there is one, comes last and is an `.mp4`. */
  lemma VideoLast(key: int, src: Sources)
    requires src.video.Some?
    ensures Suffix(MediaPaths(PinFiles(key), src)[|MediaPaths(PinFiles(key), src)| - 1]) == ".mp4"
  {
    var m := MediaPaths(PinFiles(key), src);
    assert m[|m| - 1] == VideoPath(key);
    VideoSuffix(key);
  }

  lemma ImageSuffix(key: int)
    ensures Suffix(ImagePath(key)) == ".jpg"
  {
    var ext := "jpg";
    assert '/' !in ext && '.' !in ext;
    PinPathSuffix(key, ext);
    assert "." + ext == ".jpg";
  }

  lemma VideoSuffix(key: int)
    ensures Suffix(VideoPath(key)) == ".mp4"
  {
    var ext := "mp4";
    assert '/' !in ext && '.' !in ext;
    PinPathSuffix(key, ext);
    assert "." + ext == ".mp4";
  }

  /** The image used is the first qualifying one in document order, however
      many qualify after it. */
  lemma ImageSrcIsFirst(page: Page, k: nat)
    requires k < |page.imageSrcs| && QualifiesAsImage(page.imageSrcs[k])
    requires forall j :: 0 <= j < k ==> !QualifiesAsImage(page.imageSrcs[j])
    ensures ImageSrc(page) == Some(page.imageSrcs[k].value)
  {
    var i := FirstImage(page.imageSrcs);
    assert !(i < k) && !(k < i);
  }

  /** The video used is the first tag with a `src`, however many follow. */
  lemma VideoSrcIsFirst(page: Page, k: nat)
    requires k < |page.videoSrcs| && page.videoSrcs[k].Some?
    requires forall j :: 0 <= j < k ==> page.videoSrcs[j].None?
    ensures VideoSrc(page) == page.videoSrcs[k]
  {
    var i := FirstVideo(page.videoSrcs);
    assert !(i < k) && !(k < i);
  }
}
