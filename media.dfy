/** How `handle_message` sends the files of a Pinterest pin: each as a
    video or a photo by its suffix, then each deleted. */
module Media {
  import opened Text
  import opened Storage
  import opened Transport

  /** The send kind: a file whose suffix is `.mp4` in any case is a video,
      anything else a photo. */
  predicate IsVideoFile(path: string) {
    Lower(Suffix(path)) == ".mp4"
  }

  function MediaSend(path: string): (e: Event)
    ensures (e.ReplyVideo? || e.ReplyPhoto?) && e.path == path
    ensures e.ReplyVideo? <==> IsVideoFile(path)
  {
    if IsVideoFile(path) then ReplyVideo(path) else ReplyPhoto(path)
  }

  /** `send` applied to each file, in order. */
  function Mapped(send: string -> Event, files: seq<string>): seq<Event> {
    seq(|files|, k requires 0 <= k < |files| => send(files[k]))
  }

  /** The sends for `files`, one per file, in order. */
  function Sends(files: seq<string>): seq<Event> {
    Mapped(MediaSend, files)
  }

  /** The deletions for `files`, in order. */
  function Deletions(files: seq<string>): (es: seq<Event>)
    ensures |es| == |files|
    ensures forall k :: 0 <= k < |files| ==> es[k] == Deleted(files[k])
  {
    if files == [] then [] else Deletions(files[..|files| - 1]) + [Deleted(files[|files| - 1])]
  }

  /** The send loop of the Pinterest branch, for a given way of sending one
      file. `sendsOk` is how many sends go through; when a send raises, the
      loop stops there. */
  method SendAll(files: seq<string>, sendsOk: nat, send: string -> Event) returns (events: seq<Event>, raised: bool)
    ensures raised <==> sendsOk < |files|
    ensures !raised ==> events == Mapped(send, files)
    ensures raised ==> events == Mapped(send, files[..sendsOk + 1])
  {
    events := [];
    var i := 0;
    while i < |files|
      invariant 0 <= i <= |files| && i <= sendsOk
      invariant events == Mapped(send, files[..i])
    {
      events := events + [send(files[i])];
      assert events == Mapped(send, files[..i + 1]) by {
        forall k | 0 <= k < i + 1
          ensures events[k] == Mapped(send, files[..i + 1])[k]
        {
        }
      }
      if i == sendsOk {
        return events, true;
      }
      i := i + 1;
    }
    assert files[..|files|] == files;
    raised := false;
  }

  /** The unlink loop of the Pinterest branch. */
  method DeleteAll(files: seq<string>) returns (events: seq<Event>)
    ensures events == Deletions(files)
  {
    events := [];
    var j := 0;
    while j < |files|
      invariant 0 <= j <= |files|
      invariant events == Deletions(files[..j])
    {
      assert files[..j + 1][..j] == files[..j];
      events := events + [Deleted(files[j])];
      j := j + 1;
    }
    assert files[..|files|] == files;
  }

  /** Both loops of the Pinterest branch: send every file, then delete
      every file; a send that raises ends the handler before any deletion. */
  method SendMedia(files: seq<string>, sendsOk: nat) returns (events: seq<Event>, raised: bool)
    ensures raised <==> sendsOk < |files|
    ensures !raised ==> events == Sends(files) + Deletions(files)
    ensures raised ==> events == Sends(files[..sendsOk + 1])
  {
    events, raised := SendAll(files, sendsOk, MediaSend);
    if !raised {
      var deleted := DeleteAll(files);
      events := events + deleted;
    }
  }

  /** For a file `dir/stem.ext`, the kind depends on the extension alone and
      ignores its case: `.mp4`, `.MP4` and `.Mp4` are all sent as video. */
  lemma SendKindByExtension(dir: string, stem: string, ext: string)
    requires '/' !in stem && '/' !in ext && '.' !in ext && stem != [] && ext != []
    ensures MediaSend(dir + "/" + stem + "." + ext).ReplyVideo? <==> Lower("." + ext) == ".mp4"
    ensures MediaSend(dir + "/" + stem + "." + ext).ReplyPhoto? <==> Lower("." + ext) != ".mp4"
  {
    SuffixOfJoin(dir, stem, ext);
  }

  /** The suffixes of pin files are already lower case. */
  lemma LowerOfPinSuffixes()
    ensures Lower(".mp4") == ".mp4" && Lower(".jpg") != ".mp4"
  {
    assert Lower(".jpg")[1] == 'j';
  }
}
