/** Local files as the bot sees them: byte contents, and the two parts of a
    `pathlib` path the code reads (`.name` and `.suffix`). Paths are strings
    in normal form: `/`-separated, no trailing `/`. */
module Storage {
  import opened Text

  type Bytes = seq<bv8>

  /** `DOWNLOAD_DIR`, relative to the working directory. */
  const DownloadDir := "downloads"

  /** `DOWNLOAD_DIR / name` */
  function InDownloads(name: string): string {
    DownloadDir + "/" + name
  }

  /** `Path(path).name`: the part after the last `/`, all of a path that
      has none. */
  function FileName(path: string): (name: string)
    ensures EndsWith(path, name) && '/' !in name
    ensures |name| < |path| ==> path[|path| - |name| - 1] == '/'
  {
    if path == [] || path[|path| - 1] == '/' then []
    else
      var init := path[..|path| - 1];
      var name := FileName(init);
      assert |name| < |init| ==> path[|path| - |name| - 2] == init[|init| - |name| - 1];
      name + [path[|path| - 1]]
  }

  /** A path without `/` is its own name. */
  lemma FileNameOfPlainName(name: string)
    requires '/' !in name
    ensures FileName(name) == name
  {
    var n := FileName(name);
    assert |n| == |name|;
    assert name[|name| - |n|..] == name;
  }

  /** `Path(path).suffix`: from the last `.` of the name on, provided that
      `.` is neither the first nor the last character of the name. */
  function Suffix(path: string): (s: string)
    ensures s == [] || (s[0] == '.' && |s| >= 2 && EndsWith(FileName(path), s))
  {
    var name := FileName(path);
    var j := RFind(name, '.');
    if 0 < j < |name| - 1 then name[j..] else []
  }

  /** The name of `dir/name` is `name` whenever `name` holds no `/`. */
  lemma {:induction false} FileNameOfJoin(dir: string, name: string)
    requires '/' !in name
    ensures FileName(dir + "/" + name) == name
  {
    var path := dir + "/" + name;
    if name != [] {
      var init := name[..|name| - 1];
      assert path[..|path| - 1] == dir + "/" + init;
      assert path[|path| - 1] == name[|name| - 1];
      FileNameOfJoin(dir, init);
      assert init + [name[|name| - 1]] == name;
    }
  }

  /** The suffix of `dir/stem.ext` is `.ext` whenever `ext` is non-empty and
      free of `.` and `/`, and `stem` is non-empty and free of `/`. */
  lemma SuffixOfJoin(dir: string, stem: string, ext: string)
    requires '/' !in stem && '/' !in ext && '.' !in ext && stem != [] && ext != []
    ensures Suffix(dir + "/" + stem + "." + ext) == "." + ext
  {
    var name := stem + "." + ext;
    assert dir + "/" + stem + "." + ext == dir + "/" + name;
    NoSlashInName(stem, ext);
    FileNameOfJoin(dir, name);
    LastDotOfName(stem, ext);
  }

  lemma NoSlashInName(stem: string, ext: string)
    requires '/' !in stem && '/' !in ext
    ensures '/' !in stem + "." + ext
  {
    var name := stem + "." + ext;
    forall k | 0 <= k < |name| ensures name[k] != '/' {
      if k < |stem| { assert name[k] == stem[k]; }
      else if k > |stem| { assert name[k] == ext[k - |stem| - 1]; }
    }
  }

  lemma LastDotOfName(stem: string, ext: string)
    requires '.' !in ext
    ensures RFind(stem + "." + ext, '.') == |stem|
    ensures (stem + "." + ext)[|stem|..] == "." + ext
  {
    var name := stem + ['.'] + ext;
    assert stem + "." + ext == name;
    RFindBefore(stem, '.', ext);
    var tail := ['.'] + ext;
    forall k | 0 <= k < |tail| ensures name[|stem| + k] == tail[k] {
      if k > 0 { assert name[|stem| + k] == ext[k - 1]; }
    }
    assert name[|stem|..] == tail;
  }
}
