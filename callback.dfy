/** The data carried by the two YouTube format buttons: `yt|<fmt>|<url>`,
    written by `handle_message` and read back by `button_callback`. */
module Callback {
  import opened Text

  const Prefix := "yt|"

  /** The callback data of a format button. */
  function Encode(fmt: string, url: string): (data: string)
    ensures StartsWith(data, Prefix)
    ensures |data| == |Prefix| + |fmt| + 1 + |url|
  {
    Prefix + fmt + "|" + url
  }

  datatype Decoded =
    | NotYouTube                        // the handler returns at once
    | Malformed                         // the three-way unpacking raises ValueError
    | Choice(fmt: string, url: string)

  /** `button_callback`: the `yt|` prefix check, then `_, fmt, url = data.split("|", 2)`. */
  function Decode(data: string): (d: Decoded)
    ensures d == NotYouTube <==> !StartsWith(data, Prefix)
    ensures d == Malformed <==> StartsWith(data, Prefix) && '|' !in data[|Prefix|..]
    ensures d.Choice? ==> '|' !in d.fmt
  {
    if !StartsWith(data, Prefix) then NotYouTube
    else
      var parts := Split(data, '|', 2);
      assert parts[0] == "yt" by { PrefixField(data); }
      if |parts| != 3 then
        assert '|' !in data[|Prefix|..] by { SecondFieldLast(data, parts); }
        Malformed
      else
        assert '|' in data[|Prefix|..] by { ThirdFieldExists(data, parts); }
        Choice(parts[1], parts[2])
  }

  /** The first field of prefixed data is `yt`. */
  lemma PrefixField(data: string)
    requires StartsWith(data, Prefix)
    ensures Split(data, '|', 2)[0] == "yt"
  {
    assert data == "yt" + ['|'] + data[3..];
    IndexOfAfter("yt", '|', data[3..]);
  }

  /** Two fields only: no `|` after the prefix. */
  lemma SecondFieldLast(data: string, parts: seq<string>)
    requires StartsWith(data, Prefix) && parts == Split(data, '|', 2) && |parts| != 3
    ensures '|' !in data[|Prefix|..]
  {
    assert data == "yt" + ['|'] + data[3..];
    SplitAtFirst("yt", '|', data[3..], 2);
    var rest := Split(data[3..], '|', 1);
    assert parts == ["yt"] + rest;
  }

  /** Three fields: a `|` after the prefix. */
  lemma ThirdFieldExists(data: string, parts: seq<string>)
    requires StartsWith(data, Prefix) && parts == Split(data, '|', 2) && |parts| == 3
    ensures '|' in data[|Prefix|..]
  {
    assert data == "yt" + ['|'] + data[3..];
    SplitAtFirst("yt", '|', data[3..], 2);
    var rest := Split(data[3..], '|', 1);
    assert parts == ["yt"] + rest;
    var i := IndexOf(data[3..], '|');
    assert i < |data[3..]|;
  }

  /** Round trip: a button's data decodes to the format and URL it was built
      from, whenever the format holds no `|`; the URL may hold any number. */
  lemma {:induction false} DecodeEncode(fmt: string, url: string)
    requires '|' !in fmt
    ensures Decode(Encode(fmt, url)) == Choice(fmt, url)
  {
    var data := Encode(fmt, url);
    var rest := fmt + ['|'] + url;
    assert data == "yt" + ['|'] + rest;
    SplitAtFirst("yt", '|', rest, 2);
    SplitAtFirst(fmt, '|', url, 1);
    assert Split(url, '|', 0) == [url];
    assert Split(data, '|', 2) == ["yt", fmt, url];
  }

  /** Decoding loses nothing: the data that yields a choice is exactly the
      encoding of that choice. */
  lemma EncodeDecode(data: string)
    requires Decode(data).Choice?
    ensures data == Encode(Decode(data).fmt, Decode(data).url)
  {
    var parts := Split(data, '|', 2);
    PrefixField(data);
    assert parts == [parts[0], parts[1], parts[2]];
    JoinedThree(parts[0], parts[1], parts[2], '|');
    assert Prefix == "yt" + ['|'];
  }

  lemma JoinedThree(a: string, b: string, c: string, sep: char)
    ensures Joined([a, b, c], sep) == a + [sep] + b + [sep] + c
  {
    assert [a, b, c][1..] == [b, c];
    assert [b, c][1..] == [c];
    assert Joined([b, c], sep) == b + [sep] + c;
    assert a + [sep] + (b + [sep] + c) == a + [sep] + b + [sep] + c;
  }

  /** Both buttons `handle_message` offers round-trip. */
  lemma ButtonsRoundTrip(url: string)
    ensures Decode(Encode("mp3", url)) == Choice("mp3", url)
    ensures Decode(Encode("mp4", url)) == Choice("mp4", url)
  {
    DecodeEncode("mp3", url);
    DecodeEncode("mp4", url);
  }
}
