/** The pure rules of the `search` command: the mapping of the type flag to
    a document type, the conversion of backup records into track, artist and
    playlist data, and the assembly of the documents to index. Reading and
    decoding the backup files is an input: each file arrives as the decoded
    JSON value or an error. */
module SearchCmd {
  import opened Wrappers
  import opened Json
  import opened JsonUtil
  import Seqs
  import opened Documents
  import opened VectorStore

  /** `runSearch`: the plural type flags name the singular document types;
      any other flag is passed on unchanged. */
  function DocType(flag: string): (r: string)
    ensures flag == "tracks" ==> r == "track"
    ensures flag == "artists" ==> r == "artist"
    ensures flag == "playlists" ==> r == "playlist"
    ensures flag !in {"tracks", "artists", "playlists"} ==> r == flag
  {
    if flag == "tracks" then "track"
    else if flag == "artists" then "artist"
    else if flag == "playlists" then "playlist"
    else flag
  }

  /** Mapping twice is mapping once, and the plural flags select exactly the
      kinds the document builders produce. */
  lemma DocTypeSelectsKinds(flag: string, t: TrackData, a: ArtistData, p: PlaylistData)
    ensures DocType(DocType(flag)) == DocType(flag)
    ensures DocType("tracks") == TrackToDocument(t).kind
    ensures DocType("artists") == ArtistToDocument(a).kind
    ensures DocType("playlists") == PlaylistToDocument(p).kind
  {
  }

  /** A track read from a saved-track entry (fields under "track") or a
      plain track record. */
  function TrackOf(raw: Record): (r: TrackData)
    ensures r.id == GetString(JsonUtil.TrackData(raw), "id")
    ensures r.name == GetString(JsonUtil.TrackData(raw), "name")
    ensures r.album == GetNestedString(JsonUtil.TrackData(raw), ["album", "name"])
    ensures r.artists == GetArtistNames(JsonUtil.TrackData(raw))
    ensures r.genres == [] && r.duration == 0
  {
    var data := JsonUtil.TrackData(raw);
    TrackData(GetString(data, "id"), GetString(data, "name"), GetArtistNames(data),
      GetNestedString(data, ["album", "name"]), [], 0)
  }

  function ArtistOf(raw: Record): (r: ArtistData)
    ensures r.id == GetString(raw, "id") && r.name == GetString(raw, "name")
    ensures r.genres == GetStringSlice(raw, "genres")
  {
    ArtistData(GetString(raw, "id"), GetString(raw, "name"), GetStringSlice(raw, "genres"))
  }

  /** A playlist item whose nested "track" object has a non-empty name. */
  predicate HasTrackName(item: JValue)
  {
    item.JObj? && GetObject(item.fields, "track").Some?
    && GetString(GetObject(item.fields, "track").value, "name") != ""
  }

  /** The name of a playlist item's nested "track" object; "" when there
      is none. */
  function TrackNameOf(item: JValue): string
  {
    if item.JObj? && GetObject(item.fields, "track").Some?
    then GetString(GetObject(item.fields, "track").value, "name") else ""
  }

  /** The loop over a playlist's "tracks": the non-empty names of the nested
      "track" objects, one per such item, in list order. */
  function NestedTrackNames(items: seq<JValue>): (r: seq<string>)
    ensures r == Seqs.Map(Seqs.Filter(items, HasTrackName), TrackNameOf)
    ensures forall i :: 0 <= i < |r| ==> r[i] != ""
  {
    if |items| == 0 then []
    else
      var init := items[..|items| - 1];
      var last := items[|items| - 1];
      var names := NestedTrackNames(init);
      if HasTrackName(last) then
        Seqs.MapSnoc(Seqs.Filter(init, HasTrackName), last, TrackNameOf);
        names + [TrackNameOf(last)]
      else names
  }

  /** A playlist read from a record: its strings, the length of its
      "tracks" list, and the names of the tracks in that list. */
  function PlaylistOf(raw: Record): (r: PlaylistData)
    ensures r.id == GetString(raw, "id") && r.name == GetString(raw, "name")
    ensures r.description == GetString(raw, "description") && r.owner == GetString(raw, "owner")
    ensures r.trackCount == GetPlaylistTrackCount(raw)
    ensures GetArray(raw, "tracks").None? ==> r.trackNames == []
    ensures GetArray(raw, "tracks").Some? ==>
      r.trackNames == Seqs.Map(Seqs.Filter(GetArray(raw, "tracks").value, HasTrackName), TrackNameOf)
    ensures |r.trackNames| <= r.trackCount
    ensures forall i :: 0 <= i < |r.trackNames| ==> r.trackNames[i] != ""
  {
    var names := match GetArray(raw, "tracks")
      case Some(tracks) => NestedTrackNames(tracks)
      case None => [];
    PlaylistData(GetString(raw, "id"), GetString(raw, "name"), GetString(raw, "description"),
      GetString(raw, "owner"), GetPlaylistTrackCount(raw), names)
  }

  /** A playlist lists no more track names than it has tracks. */
  predicate NamesWithinCount(p: PlaylistData)
  {
    |p.trackNames| <= p.trackCount
  }

  predicate TrackComplete(t: TrackData)
  {
    t.id != "" && t.name != ""
  }

  predicate ArtistComplete(a: ArtistData)
  {
    a.id != "" && a.name != ""
  }

  predicate PlaylistComplete(p: PlaylistData)
  {
    p.id != "" && p.name != ""
  }

  function TracksOf(records: seq<Record>): (r: seq<TrackData>)
    ensures |r| == |records| && forall i :: 0 <= i < |r| ==> r[i] == TrackOf(records[i])
  {
    seq(|records|, i requires 0 <= i < |records| => TrackOf(records[i]))
  }

  function ArtistsOf(records: seq<Record>): (r: seq<ArtistData>)
    ensures |r| == |records| && forall i :: 0 <= i < |r| ==> r[i] == ArtistOf(records[i])
  {
    seq(|records|, i requires 0 <= i < |records| => ArtistOf(records[i]))
  }

  function PlaylistsOf(records: seq<Record>): (r: seq<PlaylistData>)
    ensures |r| == |records| && forall i :: 0 <= i < |r| ==> r[i] == PlaylistOf(records[i])
  {
    seq(|records|, i requires 0 <= i < |records| => PlaylistOf(records[i]))
  }

  /** `loadTracksFromFile`: the complete tracks, in file order. */
  function LoadTracks(file: Result<JValue>): (r: Result<seq<TrackData>>)
    ensures r.Err? <==> DecodeRecords(file).Err?
    ensures r.Ok? ==> forall i :: 0 <= i < |r.value| ==> TrackComplete(r.value[i])
    ensures r.Ok? ==> Seqs.Subsequence(r.value, TracksOf(DecodeRecords(file).value))
  {
    match DecodeRecords(file)
    case Err(e) => Err(e)
    case Ok(records) =>
      Seqs.FilterSubsequence(TracksOf(records), TrackComplete);
      Ok(Seqs.Filter(TracksOf(records), TrackComplete))
  }

  /** `loadArtistsFromFile`: the complete artists, in file order. */
  function LoadArtists(file: Result<JValue>): (r: Result<seq<ArtistData>>)
    ensures r.Err? <==> DecodeRecords(file).Err?
    ensures r.Ok? ==> forall i :: 0 <= i < |r.value| ==> ArtistComplete(r.value[i])
    ensures r.Ok? ==> Seqs.Subsequence(r.value, ArtistsOf(DecodeRecords(file).value))
  {
    match DecodeRecords(file)
    case Err(e) => Err(e)
    case Ok(records) =>
      Seqs.FilterSubsequence(ArtistsOf(records), ArtistComplete);
      Ok(Seqs.Filter(ArtistsOf(records), ArtistComplete))
  }

  /** `loadPlaylistsFromFile`: the complete playlists, in file order. */
  function LoadPlaylists(file: Result<JValue>): (r: Result<seq<PlaylistData>>)
    ensures r.Err? <==> DecodeRecords(file).Err?
    ensures r.Ok? ==> forall i :: 0 <= i < |r.value| ==>
      PlaylistComplete(r.value[i]) && NamesWithinCount(r.value[i])
    ensures r.Ok? ==> Seqs.Subsequence(r.value, PlaylistsOf(DecodeRecords(file).value))
  {
    match DecodeRecords(file)
    case Err(e) => Err(e)
    case Ok(records) =>
      var all := PlaylistsOf(records);
      Seqs.FilterSubsequence(all, PlaylistComplete);
      var r := Seqs.Filter(all, PlaylistComplete);
      Seqs.FilterPreserves(all, PlaylistComplete, NamesWithinCount);
      Ok(r)
  }

  /** No complete record is lost: each occurs as often as in the file, and
      incomplete ones not at all. */
  lemma LoadersKeepComplete(file: Result<JValue>, t: TrackData, a: ArtistData, p: PlaylistData)
    requires DecodeRecords(file).Ok?
    ensures multiset(LoadTracks(file).value)[t]
      == if TrackComplete(t) then multiset(TracksOf(DecodeRecords(file).value))[t] else 0
    ensures multiset(LoadArtists(file).value)[a]
      == if ArtistComplete(a) then multiset(ArtistsOf(DecodeRecords(file).value))[a] else 0
    ensures multiset(LoadPlaylists(file).value)[p]
      == if PlaylistComplete(p) then multiset(PlaylistsOf(DecodeRecords(file).value))[p] else 0
  {
    var records := DecodeRecords(file).value;
    Seqs.FilterCount(TracksOf(records), TrackComplete, t);
    Seqs.FilterCount(ArtistsOf(records), ArtistComplete, a);
    Seqs.FilterCount(PlaylistsOf(records), PlaylistComplete, p);
  }

  /** Every document has the given kind. */
  predicate AllOfKind(docs: seq<Document>, kind: string)
  {
    forall i :: 0 <= i < |docs| ==> docs[i].kind == kind
  }

  /** The documents one source contributes: none when it fails to load. */
  function TrackDocs(file: Result<JValue>): (r: seq<Document>)
    ensures LoadTracks(file).Err? ==> r == []
    ensures AllOfKind(r, "track")
    ensures LoadTracks(file).Ok? ==> (|r| == |LoadTracks(file).value|
      && forall i :: 0 <= i < |r| ==> r[i] == TrackToDocument(LoadTracks(file).value[i]))
  {
    match LoadTracks(file)
    case Err(_) => []
    case Ok(tracks) => seq(|tracks|, i requires 0 <= i < |tracks| => TrackToDocument(tracks[i]))
  }

  function ArtistDocs(file: Result<JValue>): (r: seq<Document>)
    ensures LoadArtists(file).Err? ==> r == []
    ensures AllOfKind(r, "artist")
    ensures LoadArtists(file).Ok? ==> (|r| == |LoadArtists(file).value|
      && forall i :: 0 <= i < |r| ==> r[i] == ArtistToDocument(LoadArtists(file).value[i]))
  {
    match LoadArtists(file)
    case Err(_) => []
    case Ok(artists) => seq(|artists|, i requires 0 <= i < |artists| => ArtistToDocument(artists[i]))
  }

  function PlaylistDocs(file: Result<JValue>): (r: seq<Document>)
    ensures LoadPlaylists(file).Err? ==> r == []
    ensures AllOfKind(r, "playlist")
    ensures LoadPlaylists(file).Ok? ==> (|r| == |LoadPlaylists(file).value|
      && forall i :: 0 <= i < |r| ==> r[i] == PlaylistToDocument(LoadPlaylists(file).value[i]))
  {
    match LoadPlaylists(file)
    case Err(_) => []
    case Ok(playlists) => seq(|playlists|, i requires 0 <= i < |playlists| => PlaylistToDocument(playlists[i]))
  }

  /** The backup files the index is built from. */
  const TracksFile: string := "saved_tracks.json"
  const ArtistsFile: string := "followed_artists.json"
  const PlaylistsFile: string := "playlists.json"

  /** The position of a document kind in the index order. */
  function KindRank(kind: string): nat
  {
    if kind == "track" then 0 else if kind == "artist" then 1 else 2
  }

  /** `loadBackupDocuments`: track documents, then artist documents, then
      playlist documents; `files` gives each backup file's decoded content. */
  function LoadBackupDocuments(files: string -> Result<JValue>): (r: seq<Document>)
    ensures |r| == |TrackDocs(files(TracksFile))| + |ArtistDocs(files(ArtistsFile))| + |PlaylistDocs(files(PlaylistsFile))|
    ensures forall i :: 0 <= i < |r| ==> r[i].kind in {"track", "artist", "playlist"}
    ensures forall i, j :: 0 <= i < j < |r| ==> KindRank(r[i].kind) <= KindRank(r[j].kind)
  {
    var t := TrackDocs(files(TracksFile));
    var a := ArtistDocs(files(ArtistsFile));
    var p := PlaylistDocs(files(PlaylistsFile));
    SectionsRanked(t, a, p);
    t + a + p
  }

  /** Track, artist and playlist sections concatenated in that order are
      ordered by kind. */
  lemma SectionsRanked(t: seq<Document>, a: seq<Document>, p: seq<Document>)
    requires AllOfKind(t, "track") && AllOfKind(a, "artist") && AllOfKind(p, "playlist")
    ensures forall i :: 0 <= i < |t + a + p| ==> (t + a + p)[i].kind in {"track", "artist", "playlist"}
    ensures forall i, j :: 0 <= i < j < |t + a + p| ==> KindRank((t + a + p)[i].kind) <= KindRank((t + a + p)[j].kind)
  {
    var r := t + a + p;
    assert forall i :: 0 <= i < |r| ==> KindRank(r[i].kind) == (if i < |t| then 0 else if i < |t| + |a| then 1 else 2);
  }

  /** A source that fails to load contributes nothing, and one that loads
      contributes its documents in file order. */
  lemma BackupDocumentsSections(files: string -> Result<JValue>)
    ensures LoadTracks(files(TracksFile)).Err? && LoadArtists(files(ArtistsFile)).Err?
      ==> LoadBackupDocuments(files) == PlaylistDocs(files(PlaylistsFile))
    ensures LoadBackupDocuments(files)[..|TrackDocs(files(TracksFile))|] == TrackDocs(files(TracksFile))
    ensures LoadBackupDocuments(files)[|LoadBackupDocuments(files)| - |PlaylistDocs(files(PlaylistsFile))|..]
      == PlaylistDocs(files(PlaylistsFile))
  {
    var t := TrackDocs(files(TracksFile));
    var a := ArtistDocs(files(ArtistsFile));
    var p := PlaylistDocs(files(PlaylistsFile));
    assert LoadBackupDocuments(files) == t + a + p;
  }
}
