/** Total field extractors over decoded Spotify records (a record is a JSON
    object, `map[string]interface{}` in the source): every lookup falls back
    to "" or an empty list instead of failing. Go's nil slice and empty slice
    are both the empty sequence here. */
module JsonUtil {
  import opened Wrappers
  import opened Json
  import opened Utf8
  import Seqs

  type Record = seq<Member>

  /** Decoding a file into `[]map[string]interface{}`: null is an empty
      list, a null element an empty record, and anything that is not a list
      of objects fails. */
  function DecodeRecords(file: Result<JValue>): (r: Result<seq<Record>>)
    ensures file.Err? ==> r == Err(file.error)
    ensures file == Ok(JNull) ==> r == Ok([])
    ensures r.Ok? && file.value.JArr? ==> |r.value| == |file.value.items|
    ensures r.Ok? ==> file.Ok? && (file.value.JNull? || file.value.JArr?)
    ensures file.Ok? && file.value.JArr? ==>
      (r.Ok? <==> forall i :: 0 <= i < |file.value.items| ==> RecordLike(file.value.items[i]))
  {
    match file
    case Err(e) => Err(e)
    case Ok(JNull) => Ok([])
    case Ok(JArr(items)) =>
      if forall i :: 0 <= i < |items| ==> RecordLike(items[i]) then
        Ok(seq(|items|, i requires 0 <= i < |items| => if items[i].JObj? then items[i].fields else []))
      else Err("json: cannot unmarshal into a list of objects")
    case Ok(_) => Err("json: cannot unmarshal into a list of objects")
  }

  /** A value `encoding/json` can decode into a `map[string]interface{}`. */
  predicate RecordLike(v: JValue)
  {
    v.JObj? || v.JNull?
  }

  /** `GetString`: the value at `key` when it is a string, otherwise "". */
  function GetString(m: Record, key: string): (r: string)
    ensures Lookup(m, key).Some? && Lookup(m, key).value.JStr? ==> r == Lookup(m, key).value.s
    ensures !(Lookup(m, key).Some? && Lookup(m, key).value.JStr?) ==> r == ""
  {
    match Lookup(m, key)
    case Some(JStr(s)) => s
    case _ => ""
  }

  /** `GetNestedString`: follow `keys` through nested objects and read the
      last one as a string; "" when a step is missing or not an object. */
  function GetNestedString(m: Record, keys: seq<string>): (r: string)
    ensures |keys| == 0 ==> r == ""
    ensures |keys| == 1 ==> r == GetString(m, keys[0])
    ensures |keys| > 1 && GetObject(m, keys[0]).None? ==> r == ""
  {
    if |keys| == 0 then ""
    else if |keys| == 1 then GetString(m, keys[0])
    else
      match GetObject(m, keys[0])
      case Some(next) => GetNestedString(next, keys[1..])
      case None => ""
  }

  /** A nested read through an object equals the read inside that object. */
  lemma NestedStep(m: Record, k: string, inner: Record, rest: seq<string>)
    requires Lookup(m, k) == Some(JObj(inner)) && |rest| > 0
    ensures GetNestedString(m, [k] + rest) == GetNestedString(inner, rest)
  {
    assert ([k] + rest)[1..] == rest;
  }

  predicate IsString(v: JValue)
  {
    v.JStr?
  }

  /** The string elements of a list, in order, non-strings dropped. */
  function Strings(items: seq<JValue>): (r: seq<string>)
    ensures |r| <= |items|
    ensures forall i :: 0 <= i < |r| ==> JStr(r[i]) in items
  {
    if |items| == 0 then []
    else
      var init := Strings(items[..|items| - 1]);
      var last := items[|items| - 1];
      assert forall x :: x in items[..|items| - 1] ==> x in items;
      if last.JStr? then init + [last.s] else init
  }

  /** `Strings` is the string-filter of the list, read back as strings. */
  lemma {:induction false} StringsAreFilter(items: seq<JValue>)
    ensures seq(|Strings(items)|, i requires 0 <= i < |Strings(items)| => JStr(Strings(items)[i]))
         == Seqs.Filter(items, IsString)
  {
    if |items| > 0 {
      StringsAreFilter(items[..|items| - 1]);
    }
  }

  /** `GetStringSlice`: the string elements of the list at `key`. */
  function GetStringSlice(m: Record, key: string): (r: seq<string>)
    ensures GetArray(m, key).None? ==> r == []
    ensures GetArray(m, key).Some? ==> r == Strings(GetArray(m, key).value)
  {
    match GetArray(m, key)
    case Some(items) => Strings(items)
    case None => []
  }

  /** An object element with a non-empty "name" string. */
  predicate HasName(v: JValue)
  {
    v.JObj? && GetString(v.fields, "name") != ""
  }

  /** The "name" string of an object element; "" for any other element. */
  function NameOf(v: JValue): string
  {
    if v.JObj? then GetString(v.fields, "name") else ""
  }

  /** The loop of `GetArtistNames`: the non-empty "name" strings of the
      object elements, one per such element, in list order. */
  function NamesOf(items: seq<JValue>): (r: seq<string>)
    ensures r == Seqs.Map(Seqs.Filter(items, HasName), NameOf)
    ensures forall i :: 0 <= i < |r| ==> r[i] != ""
  {
    if |items| == 0 then []
    else
      var init := items[..|items| - 1];
      var last := items[|items| - 1];
      var names := NamesOf(init);
      if HasName(last) then
        Seqs.MapSnoc(Seqs.Filter(init, HasName), last, NameOf);
        names + [NameOf(last)]
      else names
  }

  /** `GetArtistNames`: the non-empty names of the objects in "artists", in
      list order; none when "artists" is not a list. */
  function GetArtistNames(m: Record): (r: seq<string>)
    ensures GetArray(m, "artists").None? ==> r == []
    ensures GetArray(m, "artists").Some? ==>
      r == Seqs.Map(Seqs.Filter(GetArray(m, "artists").value, HasName), NameOf)
    ensures forall i :: 0 <= i < |r| ==> r[i] != ""
  {
    match GetArray(m, "artists")
    case Some(artists) => NamesOf(artists)
    case None => []
  }

  /** The record a track's fields live in: the nested "track" object of a
      saved-track entry, or the record itself. */
  function TrackData(track: Record): (r: Record)
    ensures GetObject(track, "track").Some? ==> Lookup(track, "track") == Some(JObj(r))
    ensures GetObject(track, "track").None? ==> r == track
  {
    match GetObject(track, "track")
    case Some(t) => t
    case None => track
  }

  /** `GetTrackArtists`: the artist names of the track data. */
  function GetTrackArtists(track: Record): (r: seq<string>)
    ensures GetObject(track, "track").None? ==> r == GetArtistNames(track)
    ensures Lookup(track, "track").Some? && Lookup(track, "track").value.JObj? ==>
      r == GetArtistNames(Lookup(track, "track").value.fields)
    ensures forall i :: 0 <= i < |r| ==> r[i] != ""
  {
    GetArtistNames(TrackData(track))
  }

  /** `GetTrackAlbum`: the string "name" of the "album" object of the track
      data, or "". */
  function GetTrackAlbum(track: Record): (r: string)
    ensures r != "" ==>
      (exists album :: GetObject(TrackData(track), "album") == Some(album) && Lookup(album, "name") == Some(JStr(r)))
  {
    match GetObject(TrackData(track), "album")
    case Some(album) => GetString(album, "name")
    case None => ""
  }

  /** The album is the nested string at `album.name` of the track data. */
  lemma TrackAlbumIsNested(track: Record)
    ensures GetTrackAlbum(track) == GetNestedString(TrackData(track), ["album", "name"])
  {
    assert ["album", "name"][1..] == ["name"];
  }

  /** `GetArtistGenres`: the string elements of "genres". */
  function GetArtistGenres(artist: Record): (r: seq<string>)
    ensures r == GetStringSlice(artist, "genres")
  {
    match GetArray(artist, "genres")
    case Some(g) => Strings(g)
    case None => []
  }

  /** `GetPlaylistName`. */
  function GetPlaylistName(playlist: Record): (r: string)
    ensures r == GetString(playlist, "name")
  {
    match Lookup(playlist, "name")
    case Some(JStr(name)) => name
    case _ => ""
  }

  /** `GetPlaylistOwner`. */
  function GetPlaylistOwner(playlist: Record): (r: string)
    ensures r == GetString(playlist, "owner")
  {
    match Lookup(playlist, "owner")
    case Some(JStr(owner)) => owner
    case _ => ""
  }

  /** `GetPlaylistTrackCount`: the length of the "tracks" list, or 0. */
  function GetPlaylistTrackCount(playlist: Record): (r: nat)
    ensures Lookup(playlist, "tracks").Some? && Lookup(playlist, "tracks").value.JArr?
      ==> r == |Lookup(playlist, "tracks").value.items|
    ensures !(Lookup(playlist, "tracks").Some? && Lookup(playlist, "tracks").value.JArr?) ==> r == 0
  {
    match GetArray(playlist, "tracks")
    case Some(tracks) => |tracks|
    case None => 0
  }

  /** The bytes of "...". */
  const Ellipsis: seq<byte> := [0x2E, 0x2E, 0x2E]

  /** `Truncate`: keep `s` when it is at most `maxLen` bytes long, otherwise
      its first `maxLen - 3` bytes followed by "..." (Go panics on the slice
      when `maxLen < 3`). */
  function Truncate(s: seq<byte>, maxLen: int): (r: seq<byte>)
    requires |s| <= maxLen || maxLen >= 3
    ensures |r| <= maxLen
    ensures r == s <==> |s| <= maxLen
    ensures |s| > maxLen ==>
      (|r| == maxLen && r[..maxLen - 3] == s[..maxLen - 3] && r[maxLen - 3..] == Ellipsis)
  {
    if |s| <= maxLen then s else s[..maxLen - 3] + Ellipsis
  }

  /** `Truncate` can cut a multi-byte character in half: "ééé" truncated to
      4 bytes is no longer valid UTF-8. */
  lemma TruncateSplitsCharacter()
    ensures var s: seq<byte> := [0xC3, 0xA9, 0xC3, 0xA9, 0xC3, 0xA9];
      Valid(s) && !Valid(Truncate(s, 4))
  {
    var s: seq<byte> := [0xC3, 0xA9, 0xC3, 0xA9, 0xC3, 0xA9];
    assert FirstLength(s) == 2 && s[2..] == [0xC3, 0xA9, 0xC3, 0xA9];
    assert FirstLength(s[2..]) == 2 && s[2..][2..] == [0xC3, 0xA9];
    assert FirstLength(s[2..][2..]) == 2 && s[2..][2..][2..] == [];
    assert Truncate(s, 4) == [0xC3, 0x2E, 0x2E, 0x2E];
    assert FirstLength(Truncate(s, 4)) == 0;
  }

  /** Truncation counting characters, as the documentation of `Truncate`
      describes it: at most `maxLen` characters, a character-wise prefix
      followed by "...", and always valid UTF-8 once encoded. */
  function TruncateText(s: string, maxLen: int): (r: string)
    requires |s| <= maxLen || maxLen >= 3
    ensures |r| <= maxLen
    ensures r == s <==> |s| <= maxLen
    ensures |s| > maxLen ==> r == s[..maxLen - 3] + "..."
    ensures Valid(Encode(r))
  {
    var r := if |s| <= maxLen then s else s[..maxLen - 3] + "...";
    EncodeValid(r);
    r
  }

  /** `Min`. */
  function Min(a: int, b: int): (r: int)
    ensures r <= a && r <= b
    ensures r == a || r == b
  {
    if a < b then a else b
  }
}
