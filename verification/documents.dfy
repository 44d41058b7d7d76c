/** Builders of the searchable documents for tracks, artists and playlists:
    an ID prefixed by the kind, a fixed type, embedding text assembled from
    the fields, and a string metadata map. Documents leave the builders
    without an embedding. */
module Documents {
  import opened Text
  import opened VectorStore

  datatype TrackData = TrackData(
    id: string,
    name: string,
    artists: seq<string>,
    album: string,
    genres: seq<string>,
    duration: int)

  datatype ArtistData = ArtistData(id: string, name: string, genres: seq<string>)

  datatype PlaylistData = PlaylistData(
    id: string,
    name: string,
    description: string,
    owner: string,
    trackCount: int,
    trackNames: seq<string>)

  /** The separator of every list in content and metadata. */
  const ListSep: string := ", "

  /** Text present only when the value is non-empty. */
  function Optional(prefix: string, value: string): (r: string)
    ensures value == "" ==> r == ""
    ensures value != "" ==> r == prefix + value
  {
    if value == "" then "" else prefix + value
  }

  /** `TrackToDocument`. */
  function TrackToDocument(track: TrackData): (r: Document)
    ensures r.id == "track:" + track.id && r.kind == "track" && r.embedding == []
    ensures r.content == track.name + " by " + Join(track.artists, ListSep)
      + Optional(" from album ", track.album) + Optional(". Genres: ", Join(track.genres, ListSep))
    ensures r.metadata.Keys == {"id", "name", "artists", "album", "genres"}
    ensures r.metadata["id"] == track.id && r.metadata["name"] == track.name && r.metadata["album"] == track.album
    ensures r.metadata["artists"] == Join(track.artists, ListSep)
    ensures r.metadata["genres"] == Join(track.genres, ListSep)
  {
    var artists := Join(track.artists, ListSep);
    var genres := Join(track.genres, ListSep);
    var content := track.name + " by " + artists;
    var content := if track.album != "" then content + " from album " + track.album else content;
    var content := if genres != "" then content + ". Genres: " + genres else content;
    Document("track:" + track.id, "track", content,
      map["id" := track.id, "name" := track.name, "artists" := artists, "album" := track.album, "genres" := genres],
      [])
  }

  /** `ArtistToDocument`. */
  function ArtistToDocument(artist: ArtistData): (r: Document)
    ensures r.id == "artist:" + artist.id && r.kind == "artist" && r.embedding == []
    ensures r.content == artist.name + Optional(". Genres: ", Join(artist.genres, ListSep))
    ensures r.metadata.Keys == {"id", "name", "genres"}
    ensures r.metadata["id"] == artist.id && r.metadata["name"] == artist.name
    ensures r.metadata["genres"] == Join(artist.genres, ListSep)
  {
    var genres := Join(artist.genres, ListSep);
    var content := if genres != "" then artist.name + ". Genres: " + genres else artist.name;
    Document("artist:" + artist.id, "artist", content,
      map["id" := artist.id, "name" := artist.name, "genres" := genres],
      [])
  }

  /** At most the first ten track names go into a playlist's text. */
  const SampleSize: nat := 10

  function TrackSample(names: seq<string>): (r: seq<string>)
    ensures |r| <= SampleSize && r <= names
    ensures |names| <= SampleSize ==> r == names
  {
    if |names| > SampleSize then names[..SampleSize] else names
  }

  /** `PlaylistToDocument`. */
  function PlaylistToDocument(playlist: PlaylistData): (r: Document)
    ensures r.id == "playlist:" + playlist.id && r.kind == "playlist" && r.embedding == []
    ensures r.content == "Playlist: " + playlist.name + Optional(". ", playlist.description)
      + (if |playlist.trackNames| > 0
         then ". Contains tracks like: " + Join(TrackSample(playlist.trackNames), ListSep) else "")
    ensures r.metadata.Keys == {"id", "name", "description", "owner", "track_count"}
    ensures r.metadata["id"] == playlist.id && r.metadata["name"] == playlist.name
    ensures r.metadata["description"] == playlist.description && r.metadata["owner"] == playlist.owner
    ensures r.metadata["track_count"] == IntToDecimal(playlist.trackCount)
  {
    var content := "Playlist: " + playlist.name + Optional(". ", playlist.description);
    var content :=
      if |playlist.trackNames| > 0 then
        content + ". Contains tracks like: " + Join(TrackSample(playlist.trackNames), ListSep)
      else content;
    Document("playlist:" + playlist.id, "playlist", content,
      map["id" := playlist.id, "name" := playlist.name, "description" := playlist.description,
          "owner" := playlist.owner, "track_count" := IntToDecimal(playlist.trackCount)],
      [])
  }

  /** The source ID read back from a document ID with a kind prefix. */
  function SourceId(docId: string, kind: string): (r: string)
    ensures kind + ":" <= docId ==> docId == kind + ":" + r
  {
    if kind + ":" <= docId then docId[|kind| + 1..] else ""
  }

  /** Document IDs give back the source IDs: the builders are injective on
      IDs within a kind. */
  lemma IdsRoundTrip(t: TrackData, a: ArtistData, p: PlaylistData)
    ensures SourceId(TrackToDocument(t).id, "track") == t.id
    ensures SourceId(ArtistToDocument(a).id, "artist") == a.id
    ensures SourceId(PlaylistToDocument(p).id, "playlist") == p.id
  {
    assert "track:" <= TrackToDocument(t).id;
    assert "artist:" <= ArtistToDocument(a).id;
    assert "playlist:" <= PlaylistToDocument(p).id;
  }

  /** Documents of different kinds never share an ID, so one store can hold
      tracks, artists and playlists side by side. */
  lemma KindsNeverCollide(t: TrackData, a: ArtistData, p: PlaylistData)
    ensures TrackToDocument(t).id != ArtistToDocument(a).id
    ensures TrackToDocument(t).id != PlaylistToDocument(p).id
    ensures ArtistToDocument(a).id != PlaylistToDocument(p).id
  {
    assert TrackToDocument(t).id[0] == 't' && ArtistToDocument(a).id[0] == 'a';
    assert PlaylistToDocument(p).id[0] == 'p';
  }

  /** An artist's text is its bare name exactly when the genres join to
      nothing. */
  lemma ArtistContentIsName(a: ArtistData)
    ensures ArtistToDocument(a).content == a.name <==> Join(a.genres, ListSep) == ""
    ensures Join(a.genres, ListSep) == "" <==> |a.genres| == 0 || (|a.genres| == 1 && a.genres[0] == "")
  {
    JoinEmpty(a.genres, ListSep);
    if Join(a.genres, ListSep) != "" {
      assert |ArtistToDocument(a).content| > |a.name|;
    }
  }

  /** A track's text starts with "<name> by <artists>" and mentions an
      album only when it has one. */
  lemma TrackContentShape(t: TrackData)
    ensures t.name + " by " + Join(t.artists, ListSep) <= TrackToDocument(t).content
    ensures t.album == "" && Join(t.genres, ListSep) == "" ==>
      TrackToDocument(t).content == t.name + " by " + Join(t.artists, ListSep)
  {
    var head := t.name + " by " + Join(t.artists, ListSep);
    var content := TrackToDocument(t).content;
    assert content == head + (Optional(" from album ", t.album) + Optional(". Genres: ", Join(t.genres, ListSep)));
  }

  /** Track names past the tenth never reach the playlist text. */
  lemma PlaylistIgnoresLaterTracks(p: PlaylistData)
    requires |p.trackNames| > SampleSize
    ensures PlaylistToDocument(p).content == PlaylistToDocument(p.(trackNames := p.trackNames[..SampleSize])).content
  {
  }

  /** The playlist text starts with "Playlist: <name>". */
  lemma PlaylistContentShape(p: PlaylistData)
    ensures "Playlist: " + p.name <= PlaylistToDocument(p).content
    ensures p.description == "" && |p.trackNames| == 0 ==> PlaylistToDocument(p).content == "Playlist: " + p.name
  {
    var head := "Playlist: " + p.name;
    var rest := Optional(". ", p.description)
      + (if |p.trackNames| > 0 then ". Contains tracks like: " + Join(TrackSample(p.trackNames), ListSep) else "");
    assert PlaylistToDocument(p).content == head + rest;
  }

  /** The "track_count" metadata reads back as the track count. */
  lemma TrackCountRoundTrip(p: PlaylistData, q: PlaylistData)
    ensures p.trackCount >= 0 ==>
      (forall i :: 0 <= i < |PlaylistToDocument(p).metadata["track_count"]| ==>
        IsDigit(PlaylistToDocument(p).metadata["track_count"][i]))
      && DecimalValue(PlaylistToDocument(p).metadata["track_count"]) == p.trackCount
    ensures PlaylistToDocument(p).metadata["track_count"] == PlaylistToDocument(q).metadata["track_count"]
      ==> p.trackCount == q.trackCount
  {
    if p.trackCount >= 0 {
      DecimalRoundTrip(p.trackCount);
    }
    if PlaylistToDocument(p).metadata["track_count"] == PlaylistToDocument(q).metadata["track_count"] {
      DecimalInjective(p.trackCount, q.trackCount);
    }
  }
}
