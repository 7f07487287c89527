/** `process_spotify`: resolve the link into songs, download them one by one
    into a per-request temporary directory, zip that directory, send the
    archive if it is small enough, and clean up. spotdl, the ZIP writer and
    the transport are not modelled: what they answer is an input, and the
    directory is a map from file names to contents. */
module Spotify {
  import opened Wrappers
  import opened Text
  import opened Storage
  import opened Transport

  /** The file a download left behind. */
  datatype SongFile = SongFile(path: string, content: Bytes)

  /** One resolved song: its artist, and the file its download produced,
      `None` when `download_song` raised, answered a falsy result or a
      falsy first element, or named a file that does not exist. */
  datatype Song = Song(artist: string, download: Option<SongFile>)

  /** The rename into the temporary directory goes through: there is a
      file, and it has a name to be filed under. */
  predicate Saved(s: Song) {
    s.download.Some? && FileName(s.download.value.path) != []
  }

  /** `temp_dir / song_file.name` */
  function EntryName(s: Song): string
    requires Saved(s)
  {
    FileName(s.download.value.path)
  }

  /** One pass of the loop body. */
  function MoveIn(dir: map<string, Bytes>, s: Song): map<string, Bytes> {
    if Saved(s) then dir[EntryName(s) := s.download.value.content] else dir
  }

  /** The temporary directory after the loop has handled `songs`, in order. */
  function Collected(dir: map<string, Bytes>, songs: seq<Song>): map<string, Bytes>
    decreases |songs|
  {
    if songs == [] then dir else MoveIn(Collected(dir, songs[..|songs| - 1]), songs[|songs| - 1])
  }

  /** The names the successful songs are filed under. */
  function SavedNames(songs: seq<Song>): set<string> {
    set s | s in songs && Saved(s) :: EntryName(s)
  }

  /** The successful songs, in order. */
  function Successes(songs: seq<Song>): (r: seq<Song>)
    ensures forall s :: s in r <==> s in songs && Saved(s)
    ensures |r| <= |songs|
    decreases |songs|
  {
    if songs == [] then []
    else
      var init, last := songs[..|songs| - 1], songs[|songs| - 1];
      assert songs == init + [last];
      Successes(init) + (if Saved(last) then [last] else [])
  }

  /** The download loop, one song after the other; a song that fails is
      passed over and the loop goes on. */
  method CollectSongs(dir0: map<string, Bytes>, songs: seq<Song>) returns (dir: map<string, Bytes>)
    ensures dir == Collected(dir0, songs)
  {
    dir := dir0;
    var i := 0;
    while i < |songs|
      invariant 0 <= i <= |songs|
      invariant dir == Collected(dir0, songs[..i])
    {
      assert songs[..i + 1][..i] == songs[..i];
      dir := MoveIn(dir, songs[i]);
      i := i + 1;
    }
    assert songs[..|songs|] == songs;
  }

  /** Afterwards the directory holds what it held before plus exactly one
      entry per name a successful song was filed under. */
  lemma {:induction false} CollectedKeys(dir: map<string, Bytes>, songs: seq<Song>)
    ensures Collected(dir, songs).Keys == dir.Keys + SavedNames(songs)
    decreases |songs|
  {
    if songs != [] {
      var init, last := songs[..|songs| - 1], songs[|songs| - 1];
      assert songs == init + [last];
      CollectedKeys(dir, init);
      CollectedAppend(dir, init, last);
      SavedNamesAppend(init, last);
    }
  }

  lemma SavedNamesAppend(songs: seq<Song>, last: Song)
    ensures SavedNames(songs + [last]) == SavedNames(songs) + (if Saved(last) then {EntryName(last)} else {})
  {
    var all := songs + [last];
    forall n | n in SavedNames(all)
      ensures n in SavedNames(songs) + (if Saved(last) then {EntryName(last)} else {})
    {
      var s :| s in all && Saved(s) && EntryName(s) == n;
      if s != last {
        assert s in songs;
      }
    }
    forall n | n in SavedNames(songs)
      ensures n in SavedNames(all)
    {
      var s :| s in songs && Saved(s) && EntryName(s) == n;
      assert s in all;
    }
    if Saved(last) {
      assert last in all;
    }
  }

  /** Under each name sits the file of the last successful song filed under it. */
  lemma {:induction false} CollectedLatest(dir: map<string, Bytes>, songs: seq<Song>, i: nat)
    requires i < |songs| && Saved(songs[i])
    requires forall j :: i < j < |songs| && Saved(songs[j]) ==> EntryName(songs[j]) != EntryName(songs[i])
    ensures EntryName(songs[i]) in Collected(dir, songs)
    ensures Collected(dir, songs)[EntryName(songs[i])] == songs[i].download.value.content
    decreases |songs|
  {
    var init, last := songs[..|songs| - 1], songs[|songs| - 1];
    if i < |songs| - 1 {
      CollectedLatest(dir, init, i);
      assert init[i] == songs[i];
    }
  }

  /** A failed song changes nothing: the directory is the one the
      successful songs alone produce. */
  lemma {:induction false} FailuresChangeNothing(dir: map<string, Bytes>, songs: seq<Song>)
    ensures Collected(dir, songs) == Collected(dir, Successes(songs))
    decreases |songs|
  {
    if songs != [] {
      var init, last := songs[..|songs| - 1], songs[|songs| - 1];
      assert songs == init + [last];
      FailuresChangeNothing(dir, init);
      CollectedAppend(dir, init, last);
      SuccessesAppend(init, last);
      var r := Successes(init);
      if Saved(last) {
        CollectedAppend(dir, r, last);
        calc {
          Collected(dir, songs);
          MoveIn(Collected(dir, init), last);
          MoveIn(Collected(dir, r), last);
          Collected(dir, r + [last]);
          Collected(dir, Successes(songs));
        }
      } else {
        assert Successes(songs) == r + [];
        assert r + [] == r;
        calc {
          Collected(dir, songs);
          MoveIn(Collected(dir, init), last);
          Collected(dir, r);
        }
      }
    }
  }

  /** One more song is one more pass of the loop body. */
  lemma CollectedAppend(dir: map<string, Bytes>, songs: seq<Song>, s: Song)
    ensures Collected(dir, songs + [s]) == MoveIn(Collected(dir, songs), s)
  {
    assert (songs + [s])[..|songs|] == songs;
  }

  lemma SuccessesAppend(songs: seq<Song>, last: Song)
    ensures Successes(songs + [last]) == Successes(songs) + (if Saved(last) then [last] else [])
  {
    assert (songs + [last])[..|songs|] == songs;
  }

  /** Distinct names: every successful song gets an entry of its own. */
  predicate DistinctNames(songs: seq<Song>) {
    forall i, j :: 0 <= i < j < |songs| && Saved(songs[i]) && Saved(songs[j]) ==> EntryName(songs[i]) != EntryName(songs[j])
  }

  /** From an empty directory and with distinct names, the directory ends
      with one file per successful song. */
  lemma {:induction false} CollectedCount(songs: seq<Song>)
    requires DistinctNames(songs)
    ensures |Collected(map[], songs)| == |Successes(songs)|
    decreases |songs|
  {
    if songs != [] {
      var init, last := songs[..|songs| - 1], songs[|songs| - 1];
      DistinctNamesInit(songs);
      CollectedCount(init);
      assert songs == init + [last];
      SuccessesAppend(init, last);
      CollectedAppend(map[], init, last);
      if Saved(last) {
        CollectedKeys(map[], init);
        NameNotTaken(songs);
      }
    }
  }

  lemma DistinctNamesInit(songs: seq<Song>)
    requires songs != [] && DistinctNames(songs)
    ensures DistinctNames(songs[..|songs| - 1])
  {
    var init := songs[..|songs| - 1];
    forall i, j | 0 <= i < j < |init| && Saved(init[i]) && Saved(init[j])
      ensures EntryName(init[i]) != EntryName(init[j])
    {
      assert init[i] == songs[i] && init[j] == songs[j];
    }
  }

  /** With distinct names, the last song's name is not one the songs before
      it were filed under. */
  lemma NameNotTaken(songs: seq<Song>)
    requires songs != [] && DistinctNames(songs) && Saved(songs[|songs| - 1])
    ensures EntryName(songs[|songs| - 1]) !in SavedNames(songs[..|songs| - 1])
  {
    var init := songs[..|songs| - 1];
    forall i | 0 <= i < |init| && Saved(init[i])
      ensures EntryName(init[i]) != EntryName(songs[|songs| - 1])
    {
      assert init[i] == songs[i];
    }
  }

  /** Nothing saved from an empty directory exactly when no song succeeded. */
  lemma NothingSavedIffNoSuccess(songs: seq<Song>)
    ensures Collected(map[], songs) == map[] <==> Successes(songs) == []
  {
    CollectedKeys(map[], songs);
    if Successes(songs) != [] {
      var s := Successes(songs)[0];
      assert s in Successes(songs);
      assert EntryName(s) in SavedNames(songs);
      assert EntryName(s) in Collected(map[], songs);
    } else {
      assert SavedNames(songs) == {};
      assert Collected(map[], songs).Keys == {};
    }
  }

  /** The archive label: the artist of a single song, `Playlist` otherwise. */
  function ArchiveLabel(songs: seq<Song>): (name: string)
    ensures |songs| == 1 ==> name == songs[0].artist
    ensures |songs| != 1 ==> name == "Playlist"
  {
    if |songs| == 1 then songs[0].artist else "Playlist"
  }

  /** `DOWNLOAD_DIR / f"{name.replace(' ', '_')}.zip"` */
  function ZipPath(name: string): (path: string)
    ensures EndsWith(path, ".zip") && StartsWith(path, DownloadDir + "/")
    ensures |path| == |DownloadDir| + 1 + |name| + 4
    ensures forall k :: 0 <= k < |name| ==>
              path[|DownloadDir| + 1 + k] == (if name[k] == ' ' then '_' else name[k])
  {
    var stem := ReplaceChar(name, ' ', '_');
    assert forall k :: 0 <= k < |name| ==> InDownloads(stem + ".zip")[|DownloadDir| + 1 + k] == stem[k];
    InDownloads(stem + ".zip")
  }

  /** The ZIP goes out as a document only below 48 MiB. */
  const SizeLimit := 48 * 1024 * 1024

  predicate FitsTransport(size: nat) {
    size < SizeLimit
  }

  /** The byte comparison is exactly the source's test on megabytes. */
  lemma FitsTransportInMegabytes(size: nat)
    ensures FitsTransport(size) <==> (size as real) / (1024.0 * 1024.0) < 48.0
  {
  }

  const NoTracks := "No tracks found on Spotify."
  const NothingSaved := "Download failed \U{2014} no files saved."

  function FoundText(n: nat): string {
    "Found " + DecimalString(n) + " track(s). Downloading..."
  }

  function Caption(name: string, n: nat): string {
    "Spotify download: " + name + " (" + DecimalString(n) + " tracks)"
  }

  /** The outer handler's reply: the exception text cut to 300 characters. */
  function ErrorText(e: string): (t: string)
    ensures StartsWith(t, "Spotify error: ")
    ensures |t| == 15 + (if |e| <= 300 then |e| else 300)
    ensures StartsWith(e, t[15..])
  {
    "Spotify error: " + Truncate(e, 300)
  }
}
