/** The two Telegram handlers: `handle_message`, which routes a link, and
    `button_callback`, which carries out the YouTube format choice. Their
    replies and file deletions are logged as `Event`s. */
module Bot {
  import opened Wrappers
  import opened Text
  import opened Storage
  import opened Transport
  import opened Classifier
  import opened Callback
  import opened YouTube
  import opened Pinterest
  import opened Media

  const SpotifyDetected := "Spotify detected \U{2192} starting download..."
  const PinterestDetected := "Pinterest detected \U{2192} fetching media..."
  const PinterestFailed := "Could not download Pinterest media (page changed?)."
  const YouTubeDetected := "YouTube detected \U{2192} choose format:"
  const NotSupported := "Only Spotify, Pinterest, YouTube links supported."

  /** The keyboard offered for a YouTube link. */
  function Buttons(url: string): (bs: seq<Button>)
    ensures |bs| == 2
    ensures forall b :: b in bs ==> StartsWith(b.data, Prefix)
  {
    [Button("\U{1F3B5} MP3 (audio)", Encode("mp3", url)), Button("\U{1F3A5} MP4 (video)", Encode("mp4", url))]
  }

  /** The files a Pinterest run wrote, minus those deleted afterwards. */
  function Remaining(written: map<string, Bytes>, deleted: seq<string>): map<string, Bytes> {
    map p | p in written && p !in deleted :: written[p]
  }

  /** The Pinterest branch of `handle_message` after its first reply: when
      the fetch answers a list, the files are sent and deleted as
      `PinterestSent` says; otherwise the failure text goes out and the
      files written stay on disk (none, when no page came back). */
  predicate PinterestHandled(key: int, page: Option<Page>, imageBody: Option<Bytes>, videoBody: Option<Bytes>,
                             sendsOk: nat, events: seq<Event>, left: map<string, Bytes>, raised: bool) {
    if page.Some? && Succeeds(SourcesOf(page.value), imageBody, videoBody) then
      PinterestSent(MediaPaths(PinFiles(key), SourcesOf(page.value)), sendsOk, events, left, raised)
    else
      events == [Reply(PinterestFailed)] && !raised
      && (if page.Some? then left.Keys == WrittenPaths(PinFiles(key), SourcesOf(page.value), imageBody)
          else |left| == 0)
  }

  /** What the Pinterest branch does with the files of a successful fetch:
      all sent and then all deleted, or, when a send raises, the sends up to
      that one and every file left in place. */
  predicate PinterestSent(files: seq<string>, sendsOk: nat, events: seq<Event>, left: map<string, Bytes>, raised: bool) {
    (raised <==> sendsOk < |files|)
    && (!raised ==> events == Sends(files) + Deletions(files) && left == map[])
    && (raised ==> events == Sends(files[..sendsOk + 1]) && left.Keys == set f | f in files)
  }

  /** The Pinterest branch of `handle_message`, after the first reply:
      fetch the pin, then send and delete its files, or say it failed. */
  method HandlePinterest(key: int, page: Option<Page>, imageBody: Option<Bytes>,
                         videoBody: Option<Bytes>, sendsOk: nat)
    returns (events: seq<Event>, left: map<string, Bytes>, raised: bool)
    ensures PinterestHandled(key, page, imageBody, videoBody, sendsOk, events, left, raised)
  {
    var media, fetched, written := DownloadPinterest(key, page, imageBody, videoBody);
    if media.Some? {
      WrittenAreListed(PinFiles(key), SourcesOf(page.value), imageBody, videoBody);
      events, raised := SendMedia(media.value, sendsOk);
      left := if raised then written else Remaining(written, media.value);
      if !raised {
        AllRemoved(written, media.value);
      }
    } else {
      events, left, raised := [Reply(PinterestFailed)], written, false;
    }
  }

  /** Deleting every file written leaves nothing. */
  lemma AllRemoved(written: map<string, Bytes>, deleted: seq<string>)
    requires written.Keys == set f | f in deleted
    ensures Remaining(written, deleted) == map[]
  {
    assert Remaining(written, deleted).Keys == {};
  }

  /** What `handle_message` does on each branch of the dispatch. */
  predicate Handled(route: Route, key: int, page: Option<Page>, imageBody: Option<Bytes>, videoBody: Option<Bytes>,
                    sendsOk: nat, events: seq<Event>, left: map<string, Bytes>, raised: bool) {
    match route
    case Ignored => events == [] && !raised && left == map[]
    case ParseError => events == [] && raised && left == map[]
    case ToSpotify(url) => events == [Reply(SpotifyDetected), StartSpotifyTask(url)] && !raised && left == map[]
    case ToPinterest(_) =>
      |events| >= 1 && events[0] == Reply(PinterestDetected)
      && PinterestHandled(key, page, imageBody, videoBody, sendsOk, events[1..], left, raised)
    case ToYouTube(url) => events == [ReplyWithButtons(YouTubeDetected, Buttons(url))] && !raised && left == map[]
    case Unsupported => events == [Reply(NotSupported)] && !raised && left == map[]
  }

  /** `handle_message` for the text of a message. The Pinterest inputs are
      those of `HandlePinterest` (`key` stands for `hash(url)`). The results
      are the events, the Pinterest files left on disk, and whether the
      handler raised (a malformed link makes `urlparse` raise `ValueError`). */
  method HandleMessage(text: string, key: int, page: Option<Page>, imageBody: Option<Bytes>,
                       videoBody: Option<Bytes>, sendsOk: nat)
    returns (events: seq<Event>, left: map<string, Bytes>, raised: bool)
    ensures Handled(Classify(text), key, page, imageBody, videoBody, sendsOk, events, left, raised)
  {
    left, raised := map[], false;
    match Classify(text)
    case Ignored =>
      events := [];
    case ParseError =>
      events, raised := [], true;
    case ToSpotify(url) =>
      events := [Reply(SpotifyDetected), StartSpotifyTask(url)];
    case ToPinterest(url) =>
      var rest;
      rest, left, raised := HandlePinterest(key, page, imageBody, videoBody, sendsOk);
      events := [Reply(PinterestDetected)] + rest;
      assert events[1..] == rest;
    case ToYouTube(url) =>
      events := [ReplyWithButtons(YouTubeDetected, Buttons(url))];
    case Unsupported =>
      events := [Reply(NotSupported)];
  }

  /** Only a text that is no web URL, or a URL that `urlparse` rejects, gets
      no reply; only the latter and the Pinterest branch can raise; files
      stay behind only on the Pinterest branch. */
  lemma SilentOnlyWhenIgnored(route: Route, key: int, page: Option<Page>, imageBody: Option<Bytes>,
                              videoBody: Option<Bytes>, sendsOk: nat, events: seq<Event>,
                              left: map<string, Bytes>, raised: bool)
    requires Handled(route, key, page, imageBody, videoBody, sendsOk, events, left, raised)
    ensures events == [] <==> route == Ignored || route == ParseError
    ensures raised ==> route == ParseError || route.ToPinterest?
    ensures !route.ToPinterest? ==> left == map[]
  {
    if route.ToPinterest? && page.Some? && Succeeds(SourcesOf(page.value), imageBody, videoBody) {
      MediaCount(PinFiles(key), SourcesOf(page.value));
    }
  }

  /** A Pinterest fetch that fails in any way is answered with the failure
      text and never raises. */
  lemma PinterestFailureAnswered(key: int, page: Option<Page>, imageBody: Option<Bytes>, videoBody: Option<Bytes>,
                                 sendsOk: nat, events: seq<Event>, left: map<string, Bytes>, raised: bool)
    requires PinterestHandled(key, page, imageBody, videoBody, sendsOk, events, left, raised)
    requires page.None? || !Succeeds(SourcesOf(page.value), imageBody, videoBody)
    ensures events == [Reply(PinterestFailed)] && !raised
  {
  }

  /** A successful Pinterest run whose sends all go through deletes every
      file it wrote; one whose send raises leaves every file on disk. */
  lemma PinterestCleanup(key: int, page: Page, imageBody: Option<Bytes>, videoBody: Option<Bytes>,
                         sendsOk: nat, events: seq<Event>, left: map<string, Bytes>, raised: bool)
    requires PinterestHandled(key, Some(page), imageBody, videoBody, sendsOk, events, left, raised)
    requires Succeeds(SourcesOf(page), imageBody, videoBody)
    ensures !raised ==> left == map[]
    ensures raised ==> left.Keys == WrittenPaths(PinFiles(key), SourcesOf(page), imageBody)
  {
    WrittenAreListed(PinFiles(key), SourcesOf(page), imageBody, videoBody);
  }

  /** Each format button of a routed YouTube link decodes back to its
      format and to the link exactly as it was routed. */
  lemma ButtonsCarryUrl(text: string)
    requires Classify(text).ToYouTube?
    ensures var bs := Buttons(Strip(text));
            Decode(bs[0].data) == Choice("mp3", Strip(text)) && Decode(bs[1].data) == Choice("mp4", Strip(text))
  {
    ButtonsRoundTrip(Strip(text));
  }

  /** The image of a pin goes out as a photo. */
  lemma PinImageIsPhoto(key: int)
    ensures MediaSend(ImagePath(key)) == ReplyPhoto(ImagePath(key))
  {
    ImageSuffix(key);
    LowerOfPinSuffixes();
  }

  /** The video of a pin goes out as a video. */
  lemma PinVideoIsVideo(key: int)
    ensures MediaSend(VideoPath(key)) == ReplyVideo(VideoPath(key))
  {
    VideoSuffix(key);
    LowerOfPinSuffixes();
  }

  // ----- button_callback -----

  /** The state `button_callback` leaves: what it did, and whether it raised. */
  datatype Outcome = Outcome(events: seq<Event>, raised: bool)

  function DownloadingText(fmt: string): string {
    "Downloading as " + Upper(fmt) + "..."
  }

  /** The send of a finished download: audio for `mp3`, video otherwise. */
  function FileSend(fmt: string, path: string): Event {
    if fmt == "mp3" then ReplyAudio(path) else ReplyVideo(path)
  }

  /** Sending a saved download: the send, then the `finally` unlink, then the
      deletion of the keyboard message unless the send raised. */
  function Deliver(fmt: string, path: string, sendOk: bool): (o: Outcome)
    ensures |o.events| >= 2 && o.events[..2] == [FileSend(fmt, path), Deleted(path)]
    ensures |o.events| == if sendOk then 3 else 2
    ensures o.raised <==> !sendOk
    ensures DeleteQueryMessage in o.events <==> sendOk
  {
    if sendOk then Outcome([FileSend(fmt, path), Deleted(path), DeleteQueryMessage], false)
    else Outcome([FileSend(fmt, path), Deleted(path)], true)
  }

  /** `button_callback` as the source has it: a failed download is reported
      through `update.message`, which a callback-query update does not have,
      so the report itself raises and the keyboard message stays. */
  function ButtonCallbackAsWritten(data: string, extraction: Extraction, sendOk: bool): (o: Outcome)
    ensures |o.events| >= 1 && o.events[0] == AnswerQuery
  {
    match Decode(data)
    case NotYouTube => Outcome([AnswerQuery], false)
    case Malformed => Outcome([AnswerQuery], true)
    case Choice(fmt, url) =>
      var start := [AnswerQuery, EditQueryText(DownloadingText(fmt))];
      match DownloadYouTube(fmt, extraction)
      case Failed(_) => Outcome(start, true)
      case Saved(path) =>
        var d := Deliver(fmt, path, sendOk);
        Outcome(start + d.events, d.raised)
  }

  /** `button_callback` with the failure reported in the chat of the
      keyboard message (`query.message`), after which the handler goes on to
      delete that message. */
  function ButtonCallback(data: string, extraction: Extraction, sendOk: bool): (o: Outcome)
    ensures |o.events| >= 1 && o.events[0] == AnswerQuery
    ensures Decode(data) == NotYouTube ==> o == Outcome([AnswerQuery], false)
    ensures Decode(data) == Malformed ==> o == Outcome([AnswerQuery], true)
    ensures Decode(data).Choice? ==>
              |o.events| >= 3 && o.events[1] == EditQueryText(DownloadingText(Decode(data).fmt))
    ensures Decode(data).Choice? ==> (DeleteQueryMessage in o.events <==> !o.raised)
    ensures Decode(data).Choice? && extraction.Extracted? ==>
              var path := DownloadYouTube(Decode(data).fmt, extraction).path;
              |o.events| >= 4 && o.events[2] == FileSend(Decode(data).fmt, path) && o.events[3] == Deleted(path)
  {
    match Decode(data)
    case NotYouTube => Outcome([AnswerQuery], false)
    case Malformed => Outcome([AnswerQuery], true)
    case Choice(fmt, url) =>
      var start := [AnswerQuery, EditQueryText(DownloadingText(fmt))];
      match DownloadYouTube(fmt, extraction)
      case Failed(report) => Outcome(start + [Reply(report), DeleteQueryMessage], false)
      case Saved(path) =>
        var d := Deliver(fmt, path, sendOk);
        Outcome(start + d.events, d.raised)
  }

  /** The downloaded file is deleted whether or not sending it raised. */
  lemma DownloadAlwaysDeleted(data: string, preparedName: string, sendOk: bool)
    requires Decode(data).Choice?
    ensures var path := DownloadYouTube(Decode(data).fmt, Extracted(preparedName)).path;
            Deleted(path) in ButtonCallback(data, Extracted(preparedName), sendOk).events
            && (ButtonCallback(data, Extracted(preparedName), sendOk).raised <==> !sendOk)
  {
    var fmt := Decode(data).fmt;
    var path := DownloadYouTube(fmt, Extracted(preparedName)).path;
    var o := ButtonCallback(data, Extracted(preparedName), sendOk);
    assert o.events[3] == Deleted(path);
  }

  /** An audio choice sends the `.mp3` file the extractor produces, deletes
      it, and then deletes the keyboard message unless the send raised. */
  lemma AudioChoiceSendsMp3(url: string, preparedName: string, sendOk: bool)
    ensures var o := ButtonCallback(Encode("mp3", url), Extracted(preparedName), sendOk);
            var path := Mp3Name(preparedName);
            o.events == [AnswerQuery, EditQueryText(DownloadingText("mp3")), ReplyAudio(path), Deleted(path)]
                        + (if sendOk then [DeleteQueryMessage] else [])
            && (o.raised <==> !sendOk) && EndsWith(path, ".mp3")
  {
    DecodeEncode("mp3", url);
    ChoiceDelivers("mp3", url, Mp3Name(preparedName), Extracted(preparedName), sendOk);
  }

  /** Any other format sends the file the extractor names as a video, with
      the same deletions. */
  lemma OtherChoiceSendsVideo(fmt: string, url: string, preparedName: string, sendOk: bool)
    requires '|' !in fmt && fmt != "mp3"
    ensures var o := ButtonCallback(Encode(fmt, url), Extracted(preparedName), sendOk);
            o.events == [AnswerQuery, EditQueryText(DownloadingText(fmt)), ReplyVideo(preparedName), Deleted(preparedName)]
                        + (if sendOk then [DeleteQueryMessage] else [])
            && (o.raised <==> !sendOk)
  {
    DecodeEncode(fmt, url);
    ChoiceDelivers(fmt, url, preparedName, Extracted(preparedName), sendOk);
  }

  /** A choice whose download is saved at `path` ends as `Deliver` says:
      the send, the deletion of the file, and the deletion of the keyboard
      message unless the send raised. */
  lemma ChoiceDelivers(fmt: string, url: string, path: string, extraction: Extraction, sendOk: bool)
    requires Decode(Encode(fmt, url)) == Choice(fmt, url)
    requires DownloadYouTube(fmt, extraction) == Saved(path)
    ensures ButtonCallback(Encode(fmt, url), extraction, sendOk)
            == Outcome([AnswerQuery, EditQueryText(DownloadingText(fmt)), FileSend(fmt, path), Deleted(path)]
                       + (if sendOk then [DeleteQueryMessage] else []), !sendOk)
  {
    var start := [AnswerQuery, EditQueryText(DownloadingText(fmt))];
    var d := Deliver(fmt, path, sendOk);
    assert d.events == [FileSend(fmt, path), Deleted(path)] + (if sendOk then [DeleteQueryMessage] else []);
    assert start + d.events
           == [AnswerQuery, EditQueryText(DownloadingText(fmt)), FileSend(fmt, path), Deleted(path)]
              + (if sendOk then [DeleteQueryMessage] else []);
  }

  /** As written, a failed download is never reported and the keyboard
      message is never deleted: the handler raises right after the
      "Downloading as" edit. */
  lemma FailureReportLost(url: string, fmt: string, error: string, sendOk: bool)
    requires '|' !in fmt
    ensures var o := ButtonCallbackAsWritten(Encode(fmt, url), ExtractionFailed(error), sendOk);
            o.raised && o.events == [AnswerQuery, EditQueryText(DownloadingText(fmt))]
            && DeleteQueryMessage !in o.events
  {
    DecodeEncode(fmt, url);
  }

  /** Corrected, the failure reaches the user with its (truncated) error
      text, and the keyboard message is deleted. */
  lemma FailureReported(url: string, fmt: string, error: string, sendOk: bool)
    requires '|' !in fmt
    ensures var o := ButtonCallback(Encode(fmt, url), ExtractionFailed(error), sendOk);
            !o.raised
            && o.events == [AnswerQuery, EditQueryText(DownloadingText(fmt)),
                            Reply(FailurePrefix + Truncate(error, 200)), DeleteQueryMessage]
  {
    DecodeEncode(fmt, url);
  }

  /** The correction touches only the failure path. */
  lemma CorrectionOnlyOnFailure(data: string, extraction: Extraction, sendOk: bool)
    requires !(Decode(data).Choice? && extraction.ExtractionFailed?)
    ensures ButtonCallback(data, extraction, sendOk) == ButtonCallbackAsWritten(data, extraction, sendOk)
  {
  }
}
