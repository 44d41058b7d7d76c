/** The aggregation behind the `stats` command: library totals, artist,
    genre and album rankings, and the length of a genre's bar. The backup
    files arrive decoded, as in the search command; the field readers are
    the ones of `JsonUtil`, which the command duplicates line for line. */
module StatsCmd {
  import opened Wrappers
  import opened Json
  import opened JsonUtil
  import opened Seqs
  import Sorting

  /** `a` ranks above `b`: it was seen more often. */
  function MoreFrequent(a: Entry, b: Entry): bool
  {
    a.count > b.count
  }

  function EntryKey(e: Entry): string
  {
    e.key
  }

  /** Ranks never go up along the sequence. */
  predicate NonIncreasing(r: seq<Entry>)
  {
    forall i, j :: 0 <= i < j < |r| ==> r[i].count >= r[j].count
  }

  /** Every entry carries the number of occurrences of its key. */
  predicate CountsOccurrences(r: seq<Entry>, names: seq<string>)
  {
    forall i :: 0 <= i < |r| ==> r[i].count == multiset(names)[r[i].key] > 0
  }

  /** The keys of the entries are exactly the names that occur. */
  ghost predicate KeysAreNames(r: seq<Entry>, names: seq<string>)
  {
    forall x :: x in multiset(names) <==> exists i :: 0 <= i < |r| && r[i].key == x
  }

  /** Collecting a `map[string]int` counter into a slice and sorting it by
      count, highest first: one entry per distinct name, carrying the number
      of times the name occurs. */
  function TopCounts(names: seq<string>): (r: seq<Entry>)
    ensures DistinctKeys(r) && NonIncreasing(r)
    ensures CountsOccurrences(r, names) && KeysAreNames(r, names)
    ensures Total(r) == |names|
  {
    var t := Tally(names);
    var r := Sorting.Sort(MoreFrequent, t);
    RankedByCount(t);
    Sorting.SortDistinct(MoreFrequent, t, EntryKey);
    TallyTotal(names);
    TotalPermutation(r, t);
    PermutedTally(names, r);
    r
  }

  /** Sorting by `MoreFrequent` leaves the counts non-increasing. */
  lemma RankedByCount(t: seq<Entry>)
    ensures NonIncreasing(Sorting.Sort(MoreFrequent, t))
  {
    Sorting.SortSorted(MoreFrequent, t);
  }

  /** Any reordering of the tally still counts each name and lists every
      name. */
  lemma PermutedTally(names: seq<string>, r: seq<Entry>)
    requires multiset(r) == multiset(Tally(names))
    ensures CountsOccurrences(r, names) && KeysAreNames(r, names)
  {
    forall i | 0 <= i < |r|
      ensures r[i].count == multiset(names)[r[i].key] > 0
    {
      PermutedCount(names, r, i);
    }
    forall x
      ensures x in multiset(names) <==> exists i :: 0 <= i < |r| && r[i].key == x
    {
      PermutedKey(names, r, x);
    }
  }

  lemma PermutedCount(names: seq<string>, r: seq<Entry>, i: nat)
    requires multiset(r) == multiset(Tally(names)) && i < |r|
    ensures r[i].count == multiset(names)[r[i].key] > 0
  {
    var t := Tally(names);
    assert r[i] in multiset(t);
    var j :| 0 <= j < |t| && t[j] == r[i];
    CountOfEntry(t, j);
  }

  lemma PermutedKey(names: seq<string>, r: seq<Entry>, x: string)
    requires multiset(r) == multiset(Tally(names))
    ensures x in multiset(names) <==> exists i :: 0 <= i < |r| && r[i].key == x
  {
    var t := Tally(names);
    EntryPresent(t, x);
    assert CountOf(t, x) == multiset(names)[x];
    if exists i :: 0 <= i < |t| && t[i].key == x {
      var i :| 0 <= i < |t| && t[i].key == x;
      assert t[i] in multiset(r);
      var k :| 0 <= k < |r| && r[k] == t[i];
    }
    if exists i :: 0 <= i < |r| && r[i].key == x {
      var i :| 0 <= i < |r| && r[i].key == x;
      assert r[i] in multiset(t);
      var k :| 0 <= k < |t| && t[k] == r[i];
    }
  }

  /** The names of a list of lists, in order. */
  function Flatten(lists: seq<seq<string>>): (r: seq<string>)
    ensures forall x :: multiset(r)[x] == OccurrencesIn(lists, x)
  {
    if |lists| == 0 then [] else Flatten(lists[..|lists| - 1]) + lists[|lists| - 1]
  }

  /** How often `x` occurs across the lists. */
  function OccurrencesIn(lists: seq<seq<string>>, x: string): nat
  {
    if |lists| == 0 then 0 else OccurrencesIn(lists[..|lists| - 1], x) + multiset(lists[|lists| - 1])[x]
  }

  /** The artist names of every track, track by track. */
  function TrackArtists(tracks: seq<Record>): (r: seq<string>)
    ensures forall x :: multiset(r)[x] == OccurrencesIn(ArtistLists(tracks), x)
  {
    Flatten(ArtistLists(tracks))
  }

  function ArtistLists(tracks: seq<Record>): (r: seq<seq<string>>)
    ensures |r| == |tracks| && forall i :: 0 <= i < |r| ==> r[i] == GetTrackArtists(tracks[i])
  {
    seq(|tracks|, i requires 0 <= i < |tracks| => GetTrackArtists(tracks[i]))
  }

  /** The genres of every followed artist, artist by artist. */
  function ArtistGenres(artists: seq<Record>): (r: seq<string>)
    ensures forall x :: multiset(r)[x] == OccurrencesIn(GenreLists(artists), x)
  {
    Flatten(GenreLists(artists))
  }

  function GenreLists(artists: seq<Record>): (r: seq<seq<string>>)
    ensures |r| == |artists| && forall i :: 0 <= i < |r| ==> r[i] == GetArtistGenres(artists[i])
  {
    seq(|artists|, i requires 0 <= i < |artists| => GetArtistGenres(artists[i]))
  }

  /** The album name of every track, "" where there is none. */
  function AlbumNames(tracks: seq<Record>): (r: seq<string>)
    ensures |r| == |tracks| && forall i :: 0 <= i < |r| ==> r[i] == GetTrackAlbum(tracks[i])
  {
    seq(|tracks|, i requires 0 <= i < |tracks| => GetTrackAlbum(tracks[i]))
  }

  predicate NonEmpty(x: string)
  {
    x != ""
  }

  /** The non-empty album names of the tracks, one per track that has one:
      an album occurs as often as tracks on it. */
  function Albums(tracks: seq<Record>): (r: seq<string>)
    ensures forall i :: 0 <= i < |r| ==> r[i] != ""
    ensures forall x :: multiset(r)[x] == if x == "" then 0 else multiset(AlbumNames(tracks))[x]
  {
    var r := Filter(AlbumNames(tracks), NonEmpty);
    forall x
      ensures multiset(r)[x] == if x == "" then 0 else multiset(AlbumNames(tracks))[x]
    {
      FilterCount(AlbumNames(tracks), NonEmpty, x);
    }
    r
  }

  /** The set of distinct non-empty album names. */
  function AlbumSet(tracks: seq<Record>): (r: set<string>)
    ensures forall x :: x in r <==> x != "" && x in AlbumNames(tracks)
  {
    set x | x in AlbumNames(tracks) && x != ""
  }

  datatype PlaylistStat = PlaylistStat(name: string, trackCount: nat, owner: string)

  datatype LibraryStats = LibraryStats(
    totalTracks: nat,
    totalPlaylists: nat,
    totalArtists: nat,
    uniqueAlbums: nat,
    topArtists: seq<Entry>,
    topGenres: seq<Entry>,
    playlistStats: seq<PlaylistStat>)

  function PlaylistStatOf(playlist: Record): (r: PlaylistStat)
    ensures r.name == GetString(playlist, "name") && r.owner == GetString(playlist, "owner")
    ensures r.trackCount == GetPlaylistTrackCount(playlist)
  {
    PlaylistStat(GetPlaylistName(playlist), GetPlaylistTrackCount(playlist), GetPlaylistOwner(playlist))
  }

  /** The backup files the statistics are computed from. */
  const TracksFile: string := "saved_tracks.json"
  const ArtistsFile: string := "followed_artists.json"
  const PlaylistsFile: string := "playlists.json"

  /** The records of a file, none when it cannot be read or decoded. */
  function RecordsOf(file: Result<JValue>): (r: seq<Record>)
    ensures DecodeRecords(file).Err? ==> r == []
    ensures DecodeRecords(file).Ok? ==> r == DecodeRecords(file).value
  {
    match DecodeRecords(file)
    case Ok(records) => records
    case Err(_) => []
  }

  /** The statistics before the emptiness check. A file that fails to load
      leaves its part of the statistics at zero. */
  function Gather(files: string -> Result<JValue>): (r: LibraryStats)
    ensures r.totalTracks == |RecordsOf(files(TracksFile))|
    ensures r.totalPlaylists == |RecordsOf(files(PlaylistsFile))|
    ensures r.topArtists == TopCounts(TrackArtists(RecordsOf(files(TracksFile))))
    ensures r.totalArtists == |r.topArtists|
    ensures r.uniqueAlbums == |AlbumSet(RecordsOf(files(TracksFile)))|
    ensures r.topGenres == TopCounts(ArtistGenres(RecordsOf(files(ArtistsFile))))
    ensures |r.playlistStats| == r.totalPlaylists
    ensures forall i :: 0 <= i < |r.playlistStats| ==>
      r.playlistStats[i] == PlaylistStatOf(RecordsOf(files(PlaylistsFile))[i])
  {
    var tracks := RecordsOf(files(TracksFile));
    var artists := RecordsOf(files(ArtistsFile));
    var playlists := RecordsOf(files(PlaylistsFile));
    var topArtists := TopCounts(TrackArtists(tracks));
    LibraryStats(
      |tracks|,
      |playlists|,
      |topArtists|,
      |AlbumSet(tracks)|,
      topArtists,
      TopCounts(ArtistGenres(artists)),
      seq(|playlists|, i requires 0 <= i < |playlists| => PlaylistStatOf(playlists[i])))
  }

  /** `computeLibraryStats`: fails exactly when neither saved tracks nor
      playlists were found. */
  function ComputeLibraryStats(files: string -> Result<JValue>): (r: Result<LibraryStats>)
    ensures r.Err? <==> |RecordsOf(files(TracksFile))| == 0 && |RecordsOf(files(PlaylistsFile))| == 0
    ensures r.Err? ==> r.error == "no backup data found"
    ensures r.Ok? ==> r.value == Gather(files)
  {
    var stats := Gather(files);
    if stats.totalTracks == 0 && stats.totalPlaylists == 0 then Err("no backup data found")
    else Ok(stats)
  }

  /** `TotalArtists` counts distinct artist names, and every artist entry
      counts the tracks crediting that artist. */
  lemma ArtistsCounted(files: string -> Result<JValue>, x: string)
    requires ComputeLibraryStats(files).Ok?
    ensures var stats := ComputeLibraryStats(files).value;
      var tracks := RecordsOf(files(TracksFile));
      (x in multiset(TrackArtists(tracks)) <==> exists i :: 0 <= i < stats.totalArtists && stats.topArtists[i].key == x)
      && (forall i :: 0 <= i < stats.totalArtists ==>
            stats.topArtists[i].count == OccurrencesIn(ArtistLists(tracks), stats.topArtists[i].key))
  {
  }

  /** The genre counts add up to the genres listed across followed artists. */
  lemma GenresCounted(files: string -> Result<JValue>)
    requires ComputeLibraryStats(files).Ok?
    ensures Total(ComputeLibraryStats(files).value.topGenres) == |ArtistGenres(RecordsOf(files(ArtistsFile)))|
    ensures NonIncreasing(ComputeLibraryStats(files).value.topGenres)
  {
  }

  /** `computeTopAlbums`: the non-empty album names counted and ranked;
      an unreadable track file is an error. */
  function ComputeTopAlbums(file: Result<JValue>): (r: Result<seq<Entry>>)
    ensures r.Err? <==> DecodeRecords(file).Err?
    ensures r.Ok? ==> DistinctKeys(r.value) && NonIncreasing(r.value)
    ensures r.Ok? ==> forall i :: 0 <= i < |r.value| ==>
      r.value[i].key != "" && r.value[i].count == multiset(AlbumNames(DecodeRecords(file).value))[r.value[i].key]
  {
    match DecodeRecords(file)
    case Err(e) => Err(e)
    case Ok(tracks) =>
      var r := TopCounts(Albums(tracks));
      assert forall i :: 0 <= i < |r| ==> r[i].key != "" by {
        forall i | 0 <= i < |r|
          ensures r[i].key != ""
        {
          assert r[i].key in multiset(Albums(tracks));
        }
      }
      Ok(r)
  }

  /** The albums ranked by `computeTopAlbums` are exactly the distinct
      album names counted in `UniqueAlbums`. */
  lemma TopAlbumsAreUniqueAlbums(file: Result<JValue>, x: string)
    requires DecodeRecords(file).Ok?
    ensures x in AlbumSet(DecodeRecords(file).value)
      <==> exists i :: 0 <= i < |ComputeTopAlbums(file).value| && ComputeTopAlbums(file).value[i].key == x
  {
    var tracks := DecodeRecords(file).value;
    var r := ComputeTopAlbums(file).value;
    assert r == TopCounts(Albums(tracks));
    assert x in multiset(Albums(tracks)) <==> x != "" && x in AlbumNames(tracks);
  }

  /** The width of the widest genre bar. */
  const BarWidth: nat := 30

  /** A genre's bar: its share of the largest count scaled to 30, at least
      1. The largest count is positive whenever there is a genre. */
  function BarLength(count: nat, maxCount: int): (r: int)
    requires maxCount > 0
    ensures r >= 1
    ensures count <= maxCount ==> r <= BarWidth
    ensures count == maxCount ==> r == BarWidth
    ensures r * maxCount <= count * BarWidth || r == 1
    ensures count * BarWidth < (r + 1) * maxCount
  {
    var bar := (count * BarWidth) / maxCount;
    Quotient(count * BarWidth, maxCount);
    CancelFactor(bar, BarWidth, maxCount);
    assert count <= maxCount ==> count * BarWidth <= BarWidth * maxCount;
    if bar < 1 then 1 else bar
  }

  /** A larger count never gets a shorter bar. */
  lemma BarMonotone(c1: nat, c2: nat, maxCount: int)
    requires maxCount > 0 && c1 <= c2
    ensures BarLength(c1, maxCount) <= BarLength(c2, maxCount)
  {
    DivMonotone(c1 * BarWidth, c2 * BarWidth, maxCount);
  }

  lemma DivMonotone(a: nat, b: nat, d: int)
    requires d > 0 && a <= b
    ensures a / d <= b / d
  {
    Quotient(a, d);
    Quotient(b, d);
    CancelFactor(b / d, a / d, d);
  }

  /** The quotient brackets the scaled count. */
  lemma Quotient(n: nat, d: int)
    requires d > 0
    ensures (n / d) * d <= n < (n / d + 1) * d
  {
  }

  /** Multiplying by a positive factor can be undone in comparisons. */
  lemma CancelFactor(q: int, k: int, d: int)
    requires d > 0
    ensures q * d <= k * d ==> q <= k
    ensures k * d < (q + 1) * d ==> k <= q
  {
    if q > k {
      assert q * d >= (k + 1) * d == k * d + d;
    }
    if k > q {
      assert k * d >= (q + 1) * d;
    }
  }

  /** The largest count among the genres (0 when there are none). */
  function MaxCount(entries: seq<Entry>): (r: nat)
    ensures forall i :: 0 <= i < |entries| ==> entries[i].count <= r
    ensures |entries| > 0 ==> exists i :: 0 <= i < |entries| && entries[i].count == r
    ensures |entries| == 0 ==> r == 0
  {
    if |entries| == 0 then 0
    else
      var m := MaxCount(entries[..|entries| - 1]);
      var last := entries[|entries| - 1].count;
      assert forall i :: 0 <= i < |entries| - 1 ==> entries[i] == entries[..|entries| - 1][i];
      if last > m then last else m
  }

  /** `runStatsGenres`: the bars of the first `top` genres (a negative
      `top` makes the source's slice expression panic). */
  function GenreBars(genres: seq<Entry>, top: int): (r: seq<int>)
    requires top >= 0
    requires forall i :: 0 <= i < |genres| ==> genres[i].count > 0
    ensures |r| == if top < |genres| then top else |genres|
    ensures forall i :: 0 <= i < |r| ==> 1 <= r[i] <= BarWidth
    ensures forall i :: 0 <= i < |r| && genres[i].count == MaxCount(genres) ==> r[i] == BarWidth
    ensures forall i :: 0 <= i < |r| ==> r[i] == BarLength(genres[i].count, MaxCount(genres))
  {
    var limit := if top < |genres| then top else |genres|;
    if limit == 0 then []
    else
      var m := MaxCount(genres);
      seq(limit, i requires 0 <= i < limit => BarLength(genres[i].count, m))
  }
}
