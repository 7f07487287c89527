/** The stages of `process_spotify` around the download loop: the search,
    the empty check, the ZIP, the size test, the replies and the cleanup,
    with what each exception leaves behind. */
module SpotifyTask {
  import opened Wrappers
  import opened Text
  import opened Storage
  import opened Transport
  import opened Spotify

  datatype Search = Found(songs: seq<Song>) | SearchFailed(error: string)

  /** A ZIP file: where it is and the entries it holds, by name. */
  datatype Archive = Archive(path: string, entries: map<string, Bytes>)

  /** How writing the ZIP fails: `ZipFile(zip_path, "w")` raises before the
      file exists, or one of the `zf.write` calls raises once the entries
      named in `done` are in, and closing the archive keeps those. */
  datatype ZipFailure =
    | OpenFailed(error: string)
    | WriteFailed(error: string, done: set<string>)

  /** The entries of `dir` whose names are in `names`. */
  function Restrict(dir: map<string, Bytes>, names: set<string>): (part: map<string, Bytes>)
    ensures part.Keys == dir.Keys * names
    ensures forall n :: n in part ==> part[n] == dir[n]
  {
    map n | n in dir && n in names :: dir[n]
  }

  function Existing(workspace: Option<map<string, Bytes>>): map<string, Bytes> {
    if workspace.Some? then workspace.value else map[]
  }

  /** What one run of `process_spotify` leaves: the replies, the temporary
      directory of this link, the ZIP file on disk, and the archive fully
      written, if any. */
  datatype SpotifyResult = SpotifyResult(events: seq<Event>, workspace: Option<map<string, Bytes>>,
                                         leftover: Option<Archive>, built: Option<Archive>)

  /** The reply of the outer handler after reply number `repliesOk` raised,
      when that is reply number `k`; nothing otherwise. */
  function RaisedAt(k: nat, repliesOk: nat, replyError: string): seq<Event> {
    if k == repliesOk then [Reply(ErrorText(replyError))] else []
  }

  /** The answer after the size test. */
  function Answer(songs: seq<Song>, zipSize: nat): Event {
    if FitsTransport(zipSize) then ReplyDocument(ZipPath(ArchiveLabel(songs)), Caption(ArchiveLabel(songs), |songs|))
    else ReplyTooBig(zipSize)
  }

  /** The specification of one run of `process_spotify`, stage by stage.
      `workspace0` is this link's temporary directory if it is left over from
      an earlier run, `zip` the failure writing the ZIP, if any, and
      `zipSize` the ZIP's size in bytes. The replies of a run are numbered
      from 0; reply number `repliesOk` raises with the text `replyError`
      (none does when `repliesOk` is past the last), and the outer handler
      reports it. */
  function SpotifyRun(search: Search, workspace0: Option<map<string, Bytes>>, zip: Option<ZipFailure>,
                      zipSize: nat, repliesOk: nat, replyError: string): SpotifyResult
  {
    match search
    case SearchFailed(e) => SpotifyResult([Reply(ErrorText(e))], workspace0, None, None)
    case Found(songs) =>
      if songs == [] then
        SpotifyResult([Reply(NoTracks)] + RaisedAt(0, repliesOk, replyError), workspace0, None, None)
      else if repliesOk == 0 then
        SpotifyResult([Reply(FoundText(|songs|)), Reply(ErrorText(replyError))], workspace0, None, None)
      else
        AfterDownload(songs, Collected(Existing(workspace0), songs), zip, zipSize, repliesOk, replyError)
  }

  /** The stages after the download loop has filled the temporary directory
      with `dir`: the empty check, the ZIP, the size test, the cleanup. */
  function AfterDownload(songs: seq<Song>, dir: map<string, Bytes>, zip: Option<ZipFailure>,
                         zipSize: nat, repliesOk: nat, replyError: string): SpotifyResult
  {
    var found := Reply(FoundText(|songs|));
    if |dir| == 0 then
      if repliesOk == 1 then SpotifyResult([found, Reply(NothingSaved), Reply(ErrorText(replyError))], Some(dir), None, None)
      else SpotifyResult([found, Reply(NothingSaved)], None, None, None)
    else if zip.Some? then
      var partial := if zip.value.WriteFailed? then Some(Archive(ZipPath(ArchiveLabel(songs)), Restrict(dir, zip.value.done))) else None;
      SpotifyResult([found, Reply(ErrorText(zip.value.error))], Some(dir), partial, None)
    else
      var archive := Archive(ZipPath(ArchiveLabel(songs)), dir);
      if repliesOk == 1 then SpotifyResult([found, Answer(songs, zipSize), Reply(ErrorText(replyError))], Some(dir), Some(archive), Some(archive))
      else SpotifyResult([found, Answer(songs, zipSize)], None, None, Some(archive))
  }

  /** One run of `process_spotify`, step by step. */
  method ProcessSpotify(search: Search, workspace0: Option<map<string, Bytes>>, zip: Option<ZipFailure>,
                        zipSize: nat, repliesOk: nat, replyError: string)
    returns (events: seq<Event>, workspace: Option<map<string, Bytes>>,
             leftover: Option<Archive>, built: Option<Archive>)
    ensures SpotifyResult(events, workspace, leftover, built) == SpotifyRun(search, workspace0, zip, zipSize, repliesOk, replyError)
  {
    leftover, built := None, None;
    match search
    case SearchFailed(e) =>
      events, workspace := [Reply(ErrorText(e))], workspace0;
    case Found(songs) =>
      workspace := workspace0;
      if songs == [] {
        events := [Reply(NoTracks)];
        if repliesOk == 0 {
          events := events + [Reply(ErrorText(replyError))];
        }
        return;
      }
      events := [Reply(FoundText(|songs|))];
      if repliesOk == 0 {
        events := events + [Reply(ErrorText(replyError))];
        return;
      }
      var dir := CollectSongs(Existing(workspace0), songs);
      events, workspace, leftover, built := FinishRun(songs, dir, zip, zipSize, repliesOk, replyError);
  }

  /** The stages after the download loop, step by step. */
  method FinishRun(songs: seq<Song>, dir: map<string, Bytes>, zip: Option<ZipFailure>,
                   zipSize: nat, repliesOk: nat, replyError: string)
    returns (events: seq<Event>, workspace: Option<map<string, Bytes>>,
             leftover: Option<Archive>, built: Option<Archive>)
    ensures SpotifyResult(events, workspace, leftover, built) == AfterDownload(songs, dir, zip, zipSize, repliesOk, replyError)
  {
    var name := ArchiveLabel(songs);
    var zipPath := ZipPath(name);
    events, workspace, leftover, built := [Reply(FoundText(|songs|))], Some(dir), None, None;
    if |dir| == 0 {
      events := events + [Reply(NothingSaved)];
      if repliesOk == 1 {
        events := events + [Reply(ErrorText(replyError))];
        return;
      }
      workspace := None;
      return;
    }
    if zip.Some? {
      events := events + [Reply(ErrorText(zip.value.error))];
      if zip.value.WriteFailed? {
        leftover := Some(Archive(zipPath, Restrict(dir, zip.value.done)));
      }
      return;
    }
    var archive := Archive(zipPath, dir);
    built := Some(archive);
    if FitsTransport(zipSize) {
      events := events + [ReplyDocument(zipPath, Caption(name, |songs|))];
    } else {
      events := events + [ReplyTooBig(zipSize)];
    }
    if repliesOk == 1 {
      events, leftover := events + [Reply(ErrorText(replyError))], Some(archive);
      return;
    }
    workspace := None;
  }

  /** The size gate: a document goes out only for a ZIP below the limit. */
  lemma SizeGate(search: Search, workspace0: Option<map<string, Bytes>>, zip: Option<ZipFailure>,
                 zipSize: nat, repliesOk: nat, replyError: string)
    ensures var r := SpotifyRun(search, workspace0, zip, zipSize, repliesOk, replyError);
            forall k :: 0 <= k < |r.events| && r.events[k].ReplyDocument? ==> FitsTransport(zipSize)
  {
    if search.Found? && search.songs != [] && repliesOk > 0 {
      SizeGateAfterDownload(search.songs, Collected(Existing(workspace0), search.songs), zip, zipSize, repliesOk, replyError);
    }
  }

  lemma SizeGateAfterDownload(songs: seq<Song>, dir: map<string, Bytes>, zip: Option<ZipFailure>,
                              zipSize: nat, repliesOk: nat, replyError: string)
    ensures var r := AfterDownload(songs, dir, zip, zipSize, repliesOk, replyError);
            forall k :: 0 <= k < |r.events| && r.events[k].ReplyDocument? ==> FitsTransport(zipSize)
  {
  }

  /** The run goes through the download loop to the stages after it. */
  lemma RunCollectsThenFinishes(songs: seq<Song>, workspace0: Option<map<string, Bytes>>, zip: Option<ZipFailure>,
                                zipSize: nat, repliesOk: nat, replyError: string)
    requires songs != [] && repliesOk > 0
    ensures SpotifyRun(Found(songs), workspace0, zip, zipSize, repliesOk, replyError)
            == AfterDownload(songs, Collected(Existing(workspace0), songs), zip, zipSize, repliesOk, replyError)
  {
  }

  /** Everything after the download loop goes through: nothing is left on
      disk, and the archive of every file saved goes out, or the "too big"
      text, or the "nothing saved" text when the directory is empty. */
  lemma NormalRunCleansUp(songs: seq<Song>, dir: map<string, Bytes>, zipSize: nat, repliesOk: nat, replyError: string)
    requires repliesOk >= 2
    ensures AfterDownload(songs, dir, None, zipSize, repliesOk, replyError)
            == if |dir| == 0 then SpotifyResult([Reply(FoundText(|songs|)), Reply(NothingSaved)], None, None, None)
               else SpotifyResult([Reply(FoundText(|songs|)), Answer(songs, zipSize)], None, None,
                                  Some(Archive(ZipPath(ArchiveLabel(songs)), dir)))
  {
  }

  /** A ZIP is left on disk only after an exception: a write that raised,
      which leaves the entries written so far, or a reply after the size
      test that raised, which leaves the whole archive. */
  lemma ZipLeftOnlyOnError(search: Search, workspace0: Option<map<string, Bytes>>, zip: Option<ZipFailure>,
                           zipSize: nat, repliesOk: nat, replyError: string)
    ensures var r := SpotifyRun(search, workspace0, zip, zipSize, repliesOk, replyError);
            r.leftover.Some? ==>
              search.Found? && search.songs != []
              && r.leftover.value.path == ZipPath(ArchiveLabel(search.songs))
              && r.leftover.value.entries.Keys <= Collected(Existing(workspace0), search.songs).Keys
              && ((zip.Some? && zip.value.WriteFailed?) || (zip.None? && repliesOk == 1))
  {
  }

  /** What a write failure leaves: the ZIP with the entries written before
      it, each as saved. */
  lemma PartialZipKept(songs: seq<Song>, workspace0: Option<map<string, Bytes>>, error: string, done: set<string>,
                       zipSize: nat, repliesOk: nat, replyError: string)
    requires songs != [] && repliesOk > 0
    requires |Collected(Existing(workspace0), songs)| > 0
    ensures var r := SpotifyRun(Found(songs), workspace0, Some(WriteFailed(error, done)), zipSize, repliesOk, replyError);
            var dir := Collected(Existing(workspace0), songs);
            r.leftover == Some(Archive(ZipPath(ArchiveLabel(songs)), Restrict(dir, done)))
            && r.workspace == Some(dir) && r.built == None
            && r.events[|r.events| - 1] == Reply(ErrorText(error))
  {
    var dir := Collected(Existing(workspace0), songs);
    assert SpotifyRun(Found(songs), workspace0, Some(WriteFailed(error, done)), zipSize, repliesOk, replyError)
        == AfterDownload(songs, dir, Some(WriteFailed(error, done)), zipSize, repliesOk, replyError);
  }

  /** The temporary directory of this run stays only after an exception:
      otherwise it is gone, or it is whatever an earlier run left. */
  lemma WorkspaceLeftOnlyOnError(search: Search, workspace0: Option<map<string, Bytes>>, zip: Option<ZipFailure>,
                                 zipSize: nat, repliesOk: nat, replyError: string)
    ensures var r := SpotifyRun(search, workspace0, zip, zipSize, repliesOk, replyError);
            r.workspace.Some? && r.workspace != workspace0 ==>
              search.Found? && search.songs != [] && (zip.Some? || repliesOk == 1)
              && r.workspace == Some(Collected(Existing(workspace0), search.songs))
  {
  }

  /** A reply that raises ends the run: the outer handler reports it, and
      when it is the "nothing saved" reply, the empty temporary directory
      stays. */
  lemma RaisingReplyEndsRun(songs: seq<Song>, workspace0: Option<map<string, Bytes>>, zip: Option<ZipFailure>,
                            zipSize: nat, replyError: string)
    requires songs != []
    ensures SpotifyRun(Found(songs), workspace0, zip, zipSize, 0, replyError)
              == SpotifyResult([Reply(FoundText(|songs|)), Reply(ErrorText(replyError))], workspace0, None, None)
    ensures |Collected(Existing(workspace0), songs)| == 0 ==>
              SpotifyRun(Found(songs), workspace0, zip, zipSize, 1, replyError)
              == SpotifyResult([Reply(FoundText(|songs|)), Reply(NothingSaved), Reply(ErrorText(replyError))],
                               Some(map[]), None, None)
  {
  }
}
