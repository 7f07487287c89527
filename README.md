# Media-link bot: a Dafny model

This project models and proves properties of `main.py`, a Telegram bot. The bot takes a link in a chat message and decides whether it points at Spotify, Pinterest or YouTube. It then handles each case:

- **Spotify.** It resolves the link into songs and downloads each song into a temporary directory. It zips that directory, sends the archive when it is below 48 MiB, and cleans up.
- **Pinterest.** It scrapes the pin's page for an image and a video, fetches both into `downloads/`, and sends each file as a photo or a video. Then it deletes the files.
- **YouTube.** It offers two buttons, MP3 and MP4. Each button's callback data is `yt|<fmt>|<url>`. Pressing one downloads the file in that format, sends it, deletes it, and removes the keyboard message.

The model is organised by the bot's own structure:

| file | module | what it holds |
|---|---|---|
| `wrappers.dfy` | `Wrappers` | `Option`: `None` is Python's `None`, or an exception the caller catches |
| `text.dfy` | `Text` | the Python `str` operations the bot uses (`strip`, `lower`, `upper`, `split`, `rfind`, slicing, `replace`, `str(int)`) |
| `storage.dfy` | `Storage` | file contents as bytes, the `downloads` directory, `Path.name` and `Path.suffix` |
| `transport.dfy` | `Transport` | the replies, sends and deletions the bot asks for, as an ordered log of `Event`s |
| `url.dfy` | `Classifier` | `urlparse(url).netloc` as CPython computes it from 3.9.5 on (tab, CR and LF deleted) and from 3.9.17, 3.10.12, 3.11.4 and 3.12 on (leading C0 controls and spaces stripped), the three host tests, and the dispatch of `handle_message` |
| `callback.dfy` | `Callback` | the button data codec: `yt|fmt|url` written, then read back with `split("\|", 2)` |
| `youtube.dfy` | `YouTube` | `download_youtube`: the yt-dlp options, the name of the resulting file, the failure report |
| `pinterest.dfy` | `Pinterest` | `download_pinterest`: choosing the sources, making them absolute, the fetches, the files written |
| `media.dfy` | `Media` | the send loop and the unlink loop of the Pinterest branch |
| `spotify.dfy` | `Spotify` | `process_spotify`'s download loop, the ZIP's name and size limit, and its reply texts |
| `spotify_task.dfy` | `SpotifyTask` | one run of `process_spotify` stage by stage: the search, the empty check, the ZIP, the size test, the replies, the cleanup, and what each exception leaves on disk |
| `bot.dfy` | `Bot` | the handlers `handle_message` and `button_callback` |

External collaborators become inputs:

- what yt-dlp, spotdl, `requests` and BeautifulSoup answer;
- whether a send raises;
- the size of the ZIP;
- `hash(url)`, which becomes an integer `key`.

Some behaviour of `main.py` is easy to overlook, and the model states it as the code has it:

- **Plain text.** A text that is not an `http://` or `https://` URL gets no reply at all (`main.py:195-196`). `Classifier.PlainTextIsIgnored` and `Bot.SilentOnlyWhenIgnored` state this.
- **Cleanup.** Not every exit path cleans up:
  - the Spotify temporary directory stays when the "nothing saved" reply raises, when writing the ZIP raises, or when the answer after the size test raises (`main.py:152-179`);
  - a partial ZIP stays when one of its writes raises, and the whole ZIP stays when the answer raises;
  - the Pinterest files stay when a media fetch raises after the file was opened, or when a send raises (`main.py:107-125`, `207-214`).

  `SpotifyTask.ZipLeftOnlyOnError`, `SpotifyTask.WorkspaceLeftOnlyOnError`, `SpotifyTask.PartialZipKept`, `Bot.PinterestHandled` and `Bot.PinterestCleanup` state what is left behind on each path.
- **Format.** Any format other than `mp3` gets the video options and a video send (`main.py:79-80`, `247-248`), not only `mp4`.

## Model

| member | source | states |
|---|---|---|
| Text.Strip | main.py:194 | the result keeps no white space (Python's `isspace` set) at either end and is no longer than the text |
| Text.StripDropsOnlySpace | main.py:194 | `strip()` answers a slice of the text, and everything it drops before and after that slice is white space |
| Text.StripKeepsTrimmed | main.py:194-198 | a text with no white space at either end is its own `strip()` |
| Text.Lower | main.py:56-62 | same length; each character is mapped to lower case (ASCII letters) |
| Text.Upper | main.py:240 | same length; each character is mapped to upper case (ASCII letters) |
| Text.RFind | main.py:87 | the answer is -1 or the position of a `c`, and no `c` comes after it |
| Text.Split | main.py:239 | between 1 and `maxsplit + 1` parts; they join back to the text; every part but the last is free of the separator, and so is the last when fewer than `maxsplit` splits happened |
| Text.Truncate | main.py:90 | exactly `n` characters of a longer text and the whole of a shorter one, always a prefix; the whole text exactly when it is that short |
| Text.ReplaceChar | main.py:140 | same length; every `from` becomes `to` and every other character stays |
| Text.DecimalString | main.py:106 | only digits and a minus sign |
| Storage.FileName | main.py:148 | the name is an ending of the path, holds no `/`, and is all of the path or follows a `/` |
| Storage.FileNameOfPlainName | main.py:146-148 | a path without `/`, such as a bare song file name, is its own name |
| Storage.Suffix | main.py:209 | empty, or a `.` followed by at least one character, ending the file name |
| Storage.FileNameOfJoin | main.py:148 | the name of `dir/name` is `name` whenever `name` holds no `/` |
| Storage.SuffixOfJoin | main.py:209 | the suffix of `dir/stem.ext` is `.ext` for a non-empty stem and an extension free of `.` and `/` |
| Storage.NoSlashInName | main.py:209 | `stem.ext` holds no `/` when neither part does |
| Storage.LastDotOfName | main.py:209 | the last `.` of `stem.ext` is the one before `ext`, and the suffix from it is `.ext` |
| Classifier.LStripC0 | main.py:53-54 | what is left is an ending of the text that starts with neither a control character nor a space, and everything stripped before it is one |
| Classifier.RemoveUnsafe | main.py:53-54 | no tab, CR or LF is left, and the text never grows |
| Classifier.RemoveUnsafeAppend | main.py:53-54 | deletion works part by part: the text of two parts keeps what each part keeps, in order |
| Classifier.RemoveUnsafeChar | main.py:53-54 | one character is deleted exactly when it is tab, CR or LF |
| Classifier.AfterScheme | main.py:53-54 | either the whole text, or the part after a `:` at a position past the first |
| Classifier.AfterSchemeAt | main.py:53-54 | with the first `:` at `i`, everything up to it is taken off exactly when the part before it is a scheme starting with an ASCII letter |
| Classifier.AfterSchemeKeeps | main.py:53-54 | without a `:` past the first character the text is kept whole |
| Classifier.Authority | main.py:53-54 | the longest prefix free of `/`, `?` and `#` |
| Classifier.Netloc | main.py:53-62 | a netloc that is answered never has exactly one of `[` and `]` |
| Classifier.NetlocOfWebUrl | main.py:53-62 | for an `http(s)://` URL the netloc is the authority after `//` once tab, CR and LF are deleted; the parse fails exactly when its brackets are unbalanced |
| Classifier.HostOfWebUrl | main.py:53-62 | the netloc of `scheme://host` followed by a path, query or fragment is exactly `host` |
| Classifier.RemoveUnsafePrefix | main.py:53-54 | deleting tab, CR and LF leaves a safe prefix in place |
| Classifier.RemoveUnsafeKeepsSafe | main.py:53-54 | text without tab, CR and LF is left unchanged |
| Classifier.IsSpotifyUrl | main.py:53-54 | no answer exactly when `urlparse` raises; otherwise whether `spotify.com` occurs in the netloc as it is |
| Classifier.IsPinterestUrl | main.py:56-58 | no answer exactly when `urlparse` raises; otherwise whether `pinterest.` or `pin.it` occurs in the lowercased netloc |
| Classifier.IsYouTubeUrl | main.py:60-62 | no answer exactly when `urlparse` raises; otherwise whether `youtube.com` or `youtu.be` occurs in the lowercased netloc |
| Classifier.Classify | main.py:194-198 | ignored exactly when the stripped text is not an `http(s)://` URL; each routed branch carries the stripped text |
| Classifier.Dispatch | main.py:195-229 | not a web URL: ignored, and conversely; a parse error exactly when the URL's netloc cannot be parsed; each branch is taken only when its host test holds and every earlier test fails; unsupported only when all three fail |
| Classifier.SameHostSameBranch | main.py:53-229 | two web URLs with the same netloc take the same branch |
| Classifier.FirstMatchWins | main.py:200-202 | a link that passes the Spotify test goes to Spotify, whatever the later tests say |
| Classifier.WebUrlFacts | main.py:194-198 | `scheme://host/...` with no trailing space survives `strip()`, is routed, and has `host` as its netloc |
| Classifier.SpotifyTestIsCaseSensitive | main.py:53-54 | a host with no lower-case `s` never takes the Spotify branch, even one spelling `SPOTIFY.COM` |
| Classifier.PinterestAndYouTubeIgnoreCase | main.py:56-62 | hosts equal up to case get the same Pinterest and YouTube answers |
| Classifier.PlainTextIsIgnored | main.py:195-196 | `"not a url"` takes no branch |
| Callback.Encode | main.py:221-222 | the data starts with `yt\|` and is as long as its three parts and two separators together |
| Callback.Decode | main.py:235-239 | "not YouTube" exactly when the `yt\|` prefix is missing; malformed exactly when no `\|` follows the prefix; a chosen format holds no `\|` |
| Callback.DecodeEncode | main.py:221-239 | the data of a button decodes to its format and URL for a `\|`-free format; the URL may hold `\|` |
| Callback.EncodeDecode | main.py:221-239 | data that decodes to a choice is exactly the encoding of that choice |
| Callback.JoinedThree | main.py:239 | joining three parts puts the separator between them |
| Callback.ButtonsRoundTrip | main.py:219-239 | both the MP3 and the MP4 button decode to their own format and the URL |
| YouTube.BuildOptions | main.py:65-80 | the keys are the three base options and `format`, plus `postprocessors` exactly for `mp3`; each value as configured, including the single FFmpeg audio extractor to mp3 at quality 192 |
| YouTube.Mp3Name | main.py:86-87 | ends in `.mp3`; the part before it is a prefix of the prepared name; a name without a `.` gets `.mp3` appended |
| YouTube.Mp3NameReplacesExtension | main.py:87 | only the last extension is replaced; earlier dots stay |
| YouTube.Mp3NameMatchesCodec | main.py:75-87 | the extension written is the codec requested from the extractor |
| YouTube.DownloadYouTube | main.py:82-91 | a path exactly when the extraction ran: the prepared name itself for non-mp3 formats, `Mp3Name` of it for mp3; on failure the fixed prefix followed by exactly the first 200 characters of the error, or all of a shorter one |
| YouTube.ShortErrorReportedWhole | main.py:90 | an error of at most 200 characters is reported whole |
| Pinterest.ImageFilterEdges | main.py:101 | a tag without `src` or with an empty one never qualifies as the image; one whose `src` names a `.jpg` always does |
| Pinterest.FirstImage | main.py:101 | the first position whose `src` passes the image filter, or the end |
| Pinterest.FirstVideo | main.py:112 | the first video tag with a `src`, or the end |
| Pinterest.ImageSrc | main.py:101-103 | an image source exactly when some tag qualifies; it is one of the page's sources and passes the filter |
| Pinterest.VideoSrc | main.py:112-114 | a video source exactly when some video tag has a `src`, and it is one of them |
| Pinterest.ImageSrcIsFirst | main.py:101 | the image used is the first qualifying one in document order |
| Pinterest.VideoSrcIsFirst | main.py:112-114 | the video used is the first video tag that has a `src`, whatever follows |
| Pinterest.AbsoluteFacts | main.py:104-116 | `Absolute`: the result starts with `http` and ends with the source; it is the source exactly when that starts with `http`, otherwise six characters longer |
| Pinterest.AbsoluteIdempotent | main.py:104-105 | normalising twice is normalising once |
| Pinterest.ProtocolRelativeBecomesHttps | main.py:104-105 | `//host/path` becomes `https://host/path` |
| Pinterest.PinStemHasNoSlash | main.py:106-117 | the stem `pin_<key>` is non-empty and holds no `/` |
| Pinterest.PinPathSuffix | main.py:106-117 | a pin file's suffix is the extension it was named with |
| Pinterest.PinPathsDiffer | main.py:106-117 | the image file and the video file of one pin are different paths |
| Pinterest.FetchMedia | main.py:100-122 | the URLs fetched in order; the files written and what each holds, including an empty file after a fetch that raised; a list exactly when there is a medium and no fetch raised; the list is image then video |
| Pinterest.DownloadPinterest | main.py:93-125 | no page: nothing fetched, nothing written, no list; otherwise `FetchMedia`'s outcome for the page's sources and the pin's files; a list has one or two entries, each written |
| Pinterest.WrittenAreListed | main.py:98-122 | on success exactly the listed files were written |
| Pinterest.MediaCount | main.py:122 | at most two files, and none only when the page has neither medium |
| Pinterest.ImageFirst | main.py:106-109 | the image, when present, is first and a `.jpg` |
| Pinterest.VideoLast | main.py:117-120 | the video, when present, is last and an `.mp4` |
| Pinterest.ImageSuffix | main.py:106 | the image file of a pin has the suffix `.jpg` |
| Pinterest.VideoSuffix | main.py:117 | the video file of a pin has the suffix `.mp4` |
| Media.Deletions | main.py:213-214 | one deletion per file, in order |
| Media.SendAll | main.py:208-212 | every file sent in order, or, when a send raises, the sends up to and including that one |
| Media.DeleteAll | main.py:213-214 | the deletions of all files, in order |
| Media.SendMedia | main.py:207-214 | all sends and then all deletions, or, when a send raises, the sends so far and no deletion |
| Media.MediaSend | main.py:209-212 | a video send exactly when the suffix lowercased is `.mp4`, a photo send otherwise, of the file itself |
| Media.SendKindByExtension | main.py:209-212 | `dir/stem.ext` goes out as a video exactly when `.ext` lowercased is `.mp4`, and as a photo otherwise |
| Media.LowerOfPinSuffixes | main.py:209 | lowercasing leaves `.mp4` as it is and does not turn `.jpg` into it |
| Spotify.Successes | main.py:142-150 | exactly the songs whose file was moved in, no more of them than songs |
| Spotify.CollectSongs | main.py:142-150 | the loop leaves the directory the specification function `Collected` describes |
| Spotify.CollectedKeys | main.py:142-150 | the directory holds its earlier entries plus exactly the names of the successful songs |
| Spotify.CollectedLatest | main.py:148 | under each name sits the file of the last successful song filed under it |
| Spotify.FailuresChangeNothing | main.py:149-150 | a failed song changes nothing: the directory is the one the successful songs alone produce |
| Spotify.CollectedAppend | main.py:142-148 | one more song is one more pass of the loop body |
| Spotify.SuccessesAppend | main.py:142-150 | the successes of one more song are those before it, plus that song when it succeeded |
| Spotify.SavedNamesAppend | main.py:142-148 | the names filed under after one more song are those before, plus its own when it succeeded |
| Spotify.CollectedCount | main.py:142-150 | with distinct names, an empty directory ends with one file per successful song |
| Spotify.NothingSavedIffNoSuccess | main.py:152-155 | nothing saved into an empty directory exactly when no song succeeded |
| Spotify.ArchiveLabel | main.py:135 | the artist of the only song, `Playlist` for several |
| Spotify.ZipPath | main.py:140 | `downloads/<label>.zip`, the label copied character by character with every space written as `_` |
| Spotify.FitsTransportInMegabytes | main.py:162-163 | the byte limit is exactly the source's test "under 48 MB" |
| Spotify.ErrorText | main.py:179 | the fixed prefix followed by exactly the first 300 characters of the error, or all of a shorter one |
| SpotifyTask.Restrict | main.py:157-160 | the entries of the directory whose names were written, each as saved |
| SpotifyTask.ProcessSpotify | main.py:127-179 | the method computes the replies, the temporary directory left, the ZIP left on disk and the ZIP built, as the run specification `SpotifyRun` gives them on every path: search error, no tracks, any reply raising, nothing saved, ZIP open or write failure, document or "too big" answer |
| SpotifyTask.FinishRun | main.py:152-176 | the stages after the download loop, as `AfterDownload` specifies them |
| SpotifyTask.RunCollectsThenFinishes | main.py:136-155 | once the first reply has gone out, the run is the download loop filling the directory `Collected` describes, followed by the later stages |
| SpotifyTask.SizeGate | main.py:162-166 | a document goes out only when the ZIP is below 48 MiB, on every path |
| SpotifyTask.SizeGateAfterDownload | main.py:162-166 | the same for the stages after the download loop |
| SpotifyTask.NormalRunCleansUp | main.py:152-176 | when no reply raises and the ZIP is written: "nothing saved" for an empty directory, otherwise the document or the "too big" text for the archive of all files saved; nothing stays on disk |
| SpotifyTask.ZipLeftOnlyOnError | main.py:157-179 | a ZIP stays on disk only after a write that raised or an answer that raised, at the run's ZIP path, holding only files saved |
| SpotifyTask.PartialZipKept | main.py:157-160 | after a write raises, the ZIP keeps exactly the entries written before, the directory stays, and the error is reported last |
| SpotifyTask.WorkspaceLeftOnlyOnError | main.py:152-179 | the run's temporary directory stays only after a ZIP failure or a raising reply after the download loop, and then holds what the loop saved |
| SpotifyTask.RaisingReplyEndsRun | main.py:136-179 | a raising "Found" reply ends the run with the error reply and nothing new on disk; a raising "nothing saved" reply leaves the empty directory |
| Bot.Buttons | main.py:219-224 | two buttons, each with `yt\|` data |
| Bot.HandlePinterest | main.py:204-216 | on success the files are sent and deleted as `SendMedia` says; a failed fetch sends the failure text and leaves exactly the files written, none when the page fetch raised |
| Bot.AllRemoved | main.py:213-214 | deleting every file written leaves nothing |
| Bot.HandleMessage | main.py:193-229 | each branch of the dispatch: silence, the `urlparse` error, the Spotify reply and task, the Pinterest run, the YouTube keyboard, the unsupported text |
| Bot.SilentOnlyWhenIgnored | main.py:193-229 | silent exactly for non-URLs and unparsable URLs; only those and the Pinterest branch raise; only Pinterest leaves files |
| Bot.PinterestFailureAnswered | main.py:215-216 | a failed fetch is answered with the failure text and never raises |
| Bot.PinterestCleanup | main.py:207-214 | all sends through: every file written is gone; a send raises: every file written stays |
| Bot.ButtonsCarryUrl | main.py:218-239 | each button of a routed YouTube link decodes to its format and the stripped link |
| Bot.PinImageIsPhoto | main.py:106-212 | the image of a pin goes out as a photo |
| Bot.PinVideoIsVideo | main.py:117-210 | the video of a pin goes out as a video |
| Bot.Deliver | main.py:243-252 | the send and then the unlink always come first; when the send goes through the keyboard message is deleted after them, and when it raises nothing follows |
| Bot.ButtonCallbackAsWritten | main.py:231-252 | the query is always answered first |
| Bot.ButtonCallback | main.py:231-252 | the query is always answered; without the prefix nothing else happens; malformed data raises; a choice edits the message to "Downloading as FMT", sends and unlinks a saved file, and deletes the keyboard message exactly when nothing raised |
| Bot.DownloadAlwaysDeleted | main.py:243-250 | the downloaded file is deleted whether or not the send raised |
| Bot.AudioChoiceSendsMp3 | main.py:86-252 | the MP3 button gives the whole sequence: answer, edit, audio send of the `.mp3` file the extractor produces, unlink, then the message deletion unless the send raised |
| Bot.OtherChoiceSendsVideo | main.py:244-252 | any other format gives answer, edit, video send of the prepared file, unlink, then the message deletion unless the send raised |
| Bot.ChoiceDelivers | main.py:240-252 | a choice whose download is saved answers, edits, sends, unlinks, and deletes the keyboard message exactly when the send went through |
| Bot.FailureReportLost | main.py:89-242 | as written, a failed download raises right after the edit; the user sees no report and the keyboard message stays |
| Bot.FailureReported | main.py:89-252 | corrected, the report with the truncated error reaches the chat and the keyboard is deleted |
| Bot.CorrectionOnlyOnFailure | main.py:231-252 | the correction changes nothing but the failure path |

## Left out

- The messaging transport. Sends, replies and edits are logged as events. The order of events across concurrent updates is not modelled.
- `asyncio`. `process_spotify` is started with `asyncio.create_task` (`main.py:202`), so its replies interleave with other handlers. The model has `handle_message` log that start and gives `SpotifyTask.ProcessSpotify` as a separate run.
- yt-dlp, spotdl, `requests` and BeautifulSoup. What they answer is an input:
  - an extraction names a prepared file or carries an error;
  - a song yields a file or nothing;
  - a page is the list of `src` attributes of its `<img>` and `<video>` tags;
  - a fetch yields a body or raises.
- `hash(url)`. It stands as an integer `key`. Python randomises string hashes per process.
- ZIP writing and DEFLATE. The archive is modelled as the directory's entries. Its size in bytes is an input.
- The one-decimal MB figure in the "too big" text (`main.py:170`). It is logged as the size in bytes (`ReplyTooBig`), because float formatting is not modelled.
- Configuration and startup: `BOT_TOKEN`, the Spotify credentials, `mkdir`, logging, `main()`, the handler registration, and the `start` command's fixed greeting (`main.py:28-47`, `185-191`, `254-265`).
- Text.Lower: maps ASCII letters only. Python's full Unicode case mapping is not modelled.
- Text.Upper: maps ASCII letters only, for the same reason.
- Text.DecimalString: its contract states the characters used, not the value they denote.
- Classifier.Netloc: does not model two checks of newer CPython releases, the validation of a bracketed IPv6 host and the NFKC check on non-ASCII netlocs. Both are version dependent.
- Storage.FileName: paths are taken in normal form (`/`-separated, no trailing `/`). A `pathlib` path would first drop a trailing `/` and collapse `//`.
- Spotify.CollectSongs: a file that exists is always moved in. A `rename` that raises (across file systems, say) would be caught and skipped; this is not modelled, and neither is the file's disappearance from its old location.
- SpotifyTask.ProcessSpotify: does not model the `stat` or `rmtree` calls failing. `rmtree` runs with `ignore_errors`, and `stat` follows a ZIP that was written.
- SpotifyTask.ProcessSpotify: the error reply of the outer handler (`main.py:178-179`) is logged like any other reply. When that reply itself raises, the exception leaves the task, which `asyncio` only logs; nothing else changes.
- SpotifyTask.ProcessSpotify: the ZIP entries are the files of the temporary directory by name. `rglob` would also list subdirectories, which the download loop never creates.
- Bot.HandleMessage: the first reply of each branch ("Spotify detected", "Pinterest detected", the keyboard, the unsupported text) is taken to go through. Only the Pinterest sends and the `urlparse` error are modelled as raising there.
- Bot.HandleMessage: the `urlparse` error of the first host test is logged as `raised`. The transport's handling of that error is not modelled.

## Findings

| source | as written | input that shows it | evidently intended | confidence | as-written member | corrected member |
|---|---|---|---|---|---|---|
| main.py:89-91 | `download_youtube` reports a failure through `update.message.reply_text`, but `button_callback` passes it the callback-query update, whose `message` is `None` | press a format button for a link yt-dlp cannot fetch: the report raises `AttributeError`, nothing reaches the user and `query.message.delete()` is never reached (Bot.FailureReportLost; corrected: Bot.FailureReported, Bot.CorrectionOnlyOnFailure) | report the failure in the chat of the keyboard message (`query.message`), then delete that message | not executed | Bot.ButtonCallbackAsWritten | Bot.ButtonCallback |
