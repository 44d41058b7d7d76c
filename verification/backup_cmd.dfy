/** The backup command's decisions: which fetches a backup type starts, how
    their outcomes combine into saved data or a failure, how playlists are
    collected back into their original order, which backup a restore picks
    and which data files it writes back. The Spotify client, the file system
    and the order in which concurrent work finishes are inputs. */
module BackupCmd {
  import opened Wrappers
  import opened Text
  import opened Json
  import opened Seqs
  import opened Sorting
  import opened Storage
  import opened TimeLayout
  import QueryEngine

  // ---------------------------------------------------------------------
  // What a backup type fetches

  const TracksKey: string := "saved_tracks"
  const ArtistsKey: string := "followed_artists"
  const PlaylistsKey: string := "playlists"

  datatype Kinds = Kinds(tracks: bool, playlists: bool, artists: bool)

  /** `runTracks`, `runPlaylists` and `runArtists`. */
  function SelectKinds(backupType: string): (r: Kinds)
    ensures r.tracks <==> backupType == "all" || backupType == "tracks"
    ensures r.playlists <==> backupType == "all" || backupType == "playlists"
    ensures r.artists <==> backupType == "all" || backupType == "artists"
  {
    Kinds(
      backupType == "all" || backupType == "tracks",
      backupType == "all" || backupType == "playlists",
      backupType == "all" || backupType == "artists")
  }

  /** The names of the fetches started, in the order they are started. */
  function Launched(k: Kinds): (r: seq<string>)
    ensures TracksKey in r <==> k.tracks
    ensures PlaylistsKey in r <==> k.playlists
    ensures ArtistsKey in r <==> k.artists
    ensures forall i :: 0 <= i < |r| ==> r[i] in {TracksKey, ArtistsKey, PlaylistsKey}
    ensures forall i, j :: 0 <= i < j < |r| ==> r[i] != r[j]
  {
    (if k.tracks then [TracksKey] else [])
    + (if k.artists then [ArtistsKey] else [])
    + (if k.playlists then [PlaylistsKey] else [])
  }

  /** "all" starts all three fetches, each kind's own name starts only that
      one, and any other type starts none. */
  lemma KindSelection(backupType: string)
    ensures |Launched(SelectKinds(backupType))| == 3 <==> backupType == "all"
    ensures |Launched(SelectKinds(backupType))| == 1 <==>
      backupType == "tracks" || backupType == "playlists" || backupType == "artists"
    ensures backupType == "tracks" ==> Launched(SelectKinds(backupType)) == [TracksKey]
    ensures backupType == "playlists" ==> Launched(SelectKinds(backupType)) == [PlaylistsKey]
    ensures backupType == "artists" ==> Launched(SelectKinds(backupType)) == [ArtistsKey]
    ensures |Launched(SelectKinds(backupType))| == 0 <==>
      backupType != "all" && backupType != "tracks" && backupType != "playlists" && backupType != "artists"
  {
  }

  // ---------------------------------------------------------------------
  // Combining the fetch outcomes

  /** `backupResult`: one finished fetch. */
  datatype FetchResult = FetchResult(name: string, outcome: Result<JValue>)

  /** The saved data (a JSON object's members, one per successful fetch, in
      the order the fetches finished) and the error messages. */
  datatype Collected = Collected(data: seq<Member>, errors: seq<string>)

  /** The collection loop: a success adds its data under its name, a
      failure adds "<name>: <error>". */
  function Collect(results: seq<FetchResult>): (r: Collected)
    ensures |r.data| + |r.errors| == |results|
    ensures |r.data| == 0 <==> forall i :: 0 <= i < |results| ==> results[i].outcome.Err?
    ensures |r.errors| == 0 <==> forall i :: 0 <= i < |results| ==> results[i].outcome.Ok?
  {
    if |results| == 0 then Collected([], [])
    else
      var c := Collect(results[..|results| - 1]);
      var last := results[|results| - 1];
      assert forall i :: 0 <= i < |results| - 1 ==> results[..|results| - 1][i] == results[i];
      match last.outcome
      case Ok(v) => Collected(c.data + [Member(last.name, v)], c.errors)
      case Err(e) => Collected(c.data, c.errors + [last.name + ": " + e])
  }

  /** The value of the last successful fetch called `n`: what the source's
      map holds under `n` after the loop. */
  function LastOk(results: seq<FetchResult>, n: string): Option<JValue>
  {
    if |results| == 0 then None
    else
      var last := results[|results| - 1];
      if last.name == n && last.outcome.Ok? then Some(last.outcome.value)
      else LastOk(results[..|results| - 1], n)
  }

  /** Reading the collected members as a map gives the last success of each
      name. */
  lemma {:induction false} CollectLookup(results: seq<FetchResult>, n: string)
    ensures Lookup(Collect(results).data, n) == LastOk(results, n)
  {
    if |results| > 0 {
      var init := results[..|results| - 1];
      var last := results[|results| - 1];
      CollectLookup(init, n);
      if last.outcome.Ok? {
        LookupShadow(Collect(init).data, last.name, last.outcome.value, n);
      }
    }
  }

  /** The outcomes of the started fetches, in the order they finished. */
  function Results(arrival: seq<string>, fetch: string -> Result<JValue>): (r: seq<FetchResult>)
    ensures |r| == |arrival|
    ensures forall i :: 0 <= i < |r| ==> r[i] == FetchResult(arrival[i], fetch(arrival[i]))
  {
    seq(|arrival|, i requires 0 <= i < |arrival| => FetchResult(arrival[i], fetch(arrival[i])))
  }

  /** With every name fetched once, the last success of a name is its own
      fetch, when that succeeded. */
  lemma {:induction false} LastOkFetched(arrival: seq<string>, fetch: string -> Result<JValue>, n: string)
    ensures LastOk(Results(arrival, fetch), n) == if n in arrival && fetch(n).Ok? then Some(fetch(n).value) else None
  {
    if |arrival| > 0 {
      var init := arrival[..|arrival| - 1];
      assert Results(arrival, fetch)[..|arrival| - 1] == Results(init, fetch);
      LastOkFetched(init, fetch, n);
      assert arrival == init + [arrival[|arrival| - 1]];
    }
  }

  /** `%v` of a list of errors: the messages between brackets, separated by
      spaces. */
  function ErrorList(errors: seq<string>): (r: string)
    ensures "[" <= r && r[|r| - 1] == ']'
  {
    "[" + Join(errors, " ") + "]"
  }

  /** Every started fetch failed. */
  predicate AllFailed(started: seq<string>, fetch: string -> Result<JValue>)
  {
    forall i :: 0 <= i < |started| ==> fetch(started[i]).Err?
  }

  /** The members hold, under each name, the data of that name's fetch
      exactly when it was started and succeeded. */
  ghost predicate HoldsFetched(data: seq<Member>, started: seq<string>, fetch: string -> Result<JValue>)
  {
    forall n :: Lookup(data, n) == if n in started && fetch(n).Ok? then Some(fetch(n).value) else None
  }

  /** A finishing order is a permutation of the started names. */
  lemma ArrivalPermutes(arrival: seq<string>, started: seq<string>)
    requires multiset(arrival) == multiset(started)
    ensures |arrival| == |started|
    ensures forall n :: n in arrival <==> n in started
  {
    assert |multiset(arrival)| == |multiset(started)|;
    forall n
      ensures n in arrival <==> n in started
    {
      assert n in arrival <==> n in multiset(arrival);
      assert n in started <==> n in multiset(started);
    }
  }

  /** Every result failed exactly when every started fetch did. */
  lemma ResultsAllFailed(arrival: seq<string>, started: seq<string>, fetch: string -> Result<JValue>)
    requires forall n :: n in arrival <==> n in started
    ensures (forall i :: 0 <= i < |Results(arrival, fetch)| ==> Results(arrival, fetch)[i].outcome.Err?)
      <==> AllFailed(started, fetch)
  {
    var results := Results(arrival, fetch);
    if forall i :: 0 <= i < |results| ==> results[i].outcome.Err? {
      forall i | 0 <= i < |started|
        ensures fetch(started[i]).Err?
      {
        assert started[i] in arrival;
        var j :| 0 <= j < |arrival| && arrival[j] == started[i];
        assert results[j].outcome == fetch(started[i]);
      }
    }
    if AllFailed(started, fetch) {
      forall i | 0 <= i < |results|
        ensures results[i].outcome.Err?
      {
        assert arrival[i] in started;
        var j :| 0 <= j < |started| && started[j] == arrival[i];
      }
    }
  }

  /** The collected members hold what was fetched. */
  lemma CollectedHoldsFetched(arrival: seq<string>, started: seq<string>, fetch: string -> Result<JValue>)
    requires forall n :: n in arrival <==> n in started
    ensures HoldsFetched(Collect(Results(arrival, fetch)).data, started, fetch)
  {
    forall n
      ensures Lookup(Collect(Results(arrival, fetch)).data, n)
        == if n in started && fetch(n).Ok? then Some(fetch(n).value) else None
    {
      CollectLookup(Results(arrival, fetch), n);
      LastOkFetched(arrival, fetch, n);
    }
  }

  /** Fetching and collecting in `performBackupConcurrent`. `arrival` is the
      order in which the started fetches finish, one result each. The
      backup fails only when there were errors and nothing succeeded. */
  function CollectBackup(backupType: string, fetch: string -> Result<JValue>, arrival: seq<string>): (r: Result<Collected>)
    requires multiset(arrival) == multiset(Launched(SelectKinds(backupType)))
    ensures var started := Launched(SelectKinds(backupType));
      r.Err? <==> |started| > 0 && AllFailed(started, fetch)
    ensures r.Err? ==> "all backup operations failed: [" <= r.error
    ensures r.Ok? ==> HoldsFetched(r.value.data, Launched(SelectKinds(backupType)), fetch)
    ensures r.Ok? ==> |r.value.errors| + |r.value.data| == |Launched(SelectKinds(backupType))|
  {
    var started := Launched(SelectKinds(backupType));
    var results := Results(arrival, fetch);
    var c := Collect(results);
    ArrivalPermutes(arrival, started);
    ResultsAllFailed(arrival, started, fetch);
    if |c.errors| > 0 && |c.data| == 0 then
      Err("all backup operations failed: " + ErrorList(c.errors))
    else
      CollectedHoldsFetched(arrival, started, fetch);
      Ok(c)
  }

  /** An unrecognised backup type starts no fetch and does not fail: the
      backup goes on to save empty data. */
  lemma UnknownTypeSavesNothing(backupType: string, fetch: string -> Result<JValue>)
    requires backupType != "all" && backupType != "tracks" && backupType != "playlists" && backupType != "artists"
    ensures CollectBackup(backupType, fetch, []) == Ok(Collected([], []))
  {
  }

  // ---------------------------------------------------------------------
  // Saving

  /** The per-kind data file a name is saved to. */
  function DataFile(s: Store, name: string): (r: string)
    ensures s.dataDir != "" ==> r == s.dataDir + "/" + name + JsonExt
  {
    PathJoin(s.dataDir, name + JsonExt)
  }

  /** The errors of the per-kind writes, "failed to save <name>: <error>". */
  function SaveErrors(s: Store, data: seq<Member>, fail: string -> Option<string>): (r: seq<string>)
    ensures |r| <= |data|
    ensures |r| == 0 <==> forall i :: 0 <= i < |data| ==> fail(DataFile(s, data[i].key)).None?
  {
    if |data| == 0 then []
    else
      var m := data[|data| - 1];
      var rest := SaveErrors(s, data[..|data| - 1], fail);
      assert forall i :: 0 <= i < |data| - 1 ==> data[..|data| - 1][i] == data[i];
      match fail(DataFile(s, m.key))
      case Some(e) => rest + ["failed to save " + m.key + ": " + e]
      case None => rest
  }

  /** `saveBackupFilesConcurrent`: every member to its data file, and the
      whole object to a new backup file by `createBackupBuffered`. That
      helper names, encodes and describes the file exactly as the store's
      `CreateBackup` does and differs only in buffering the write, so it is
      modelled by `CreateBackup`. `fail` gives the error, if any, of writing
      a data file; `write` that of writing the backup file. */
  function SaveBackupFiles(
    s: Store, backupType: string, now: int, clock: DateTime, data: seq<Member>,
    fail: string -> Option<string>, write: string -> Result<int>): (r: Option<string>)
    ensures r.None? <==>
      (forall i :: 0 <= i < |data| ==> fail(DataFile(s, data[i].key)).None?)
      && CreateBackup(s, backupType, now, clock, write).Ok?
    ensures r.Some? ==> "save errors: [" <= r.value
  {
    var errors := SaveErrors(s, data, fail);
    var errors :=
      match CreateBackup(s, backupType, now, clock, write)
      case Ok(_) => errors
      case Err(e) => errors + ["failed to create backup: " + e];
    if |errors| > 0 then Some("save errors: " + ErrorList(errors)) else None
  }

  /** `performBackupConcurrent`: collect, then save. */
  function PerformBackup(
    s: Store, backupType: string, now: int, clock: DateTime,
    fetch: string -> Result<JValue>, arrival: seq<string>,
    fail: string -> Option<string>, write: string -> Result<int>): (r: Result<Collected>)
    requires multiset(arrival) == multiset(Launched(SelectKinds(backupType)))
    ensures CollectBackup(backupType, fetch, arrival).Err? ==> r == CollectBackup(backupType, fetch, arrival)
    ensures r.Ok? <==> (CollectBackup(backupType, fetch, arrival).Ok?
      && SaveBackupFiles(s, backupType, now, clock, CollectBackup(backupType, fetch, arrival).value.data, fail, write).None?)
    ensures r.Ok? ==> r == CollectBackup(backupType, fetch, arrival)
    ensures CollectBackup(backupType, fetch, arrival).Ok? && r.Err? ==>
      r.error == "failed to save backup files: "
        + SaveBackupFiles(s, backupType, now, clock, CollectBackup(backupType, fetch, arrival).value.data, fail, write).value
  {
    match CollectBackup(backupType, fetch, arrival)
    case Err(e) => Err(e)
    case Ok(c) =>
      match SaveBackupFiles(s, backupType, now, clock, c.data, fail, write)
      case Some(e) => Err("failed to save backup files: " + e)
      case None => Ok(c)
  }

  // ---------------------------------------------------------------------
  // Playlists

  datatype SimplePlaylist = SimplePlaylist(id: string, name: string, owner: string, public: bool)

  /** `playlistData`. */
  datatype PlaylistData = PlaylistData(id: string, name: string, owner: string, public: bool, tracks: JValue)

  /** Go's zero `playlistData`, left in the slot of a failed fetch. */
  const NoPlaylist: PlaylistData := PlaylistData("", "", "", false, JNull)

  const MaxConcurrentPlaylistFetches: nat := 5

  /** `numWorkers`: at most five, and no more than there are playlists. */
  function Workers(n: nat): (r: nat)
    ensures r <= MaxConcurrentPlaylistFetches && r <= n
    ensures r == MaxConcurrentPlaylistFetches || r == n
  {
    if n < MaxConcurrentPlaylistFetches then n else MaxConcurrentPlaylistFetches
  }

  /** What a worker produces for one playlist. */
  function SlotOf(p: SimplePlaylist, tracksOf: string -> Result<JValue>): (r: PlaylistData)
    ensures tracksOf(p.id).Err? ==> r == NoPlaylist
    ensures tracksOf(p.id).Ok? ==> r.id == p.id && r.name == p.name && r.tracks == tracksOf(p.id).value
  {
    match tracksOf(p.id)
    case Ok(items) => PlaylistData(p.id, p.name, p.owner, p.public, items)
    case Err(_) => NoPlaylist
  }

  /** The results stored by index as they arrive, in `arrivals` order. */
  function Place(
    slots: seq<PlaylistData>, ps: seq<SimplePlaylist>, tracksOf: string -> Result<JValue>, arrivals: seq<nat>)
    : (r: seq<PlaylistData>)
    requires |slots| == |ps|
    requires forall k :: 0 <= k < |arrivals| ==> arrivals[k] < |ps|
    ensures |r| == |slots|
    ensures forall i :: 0 <= i < |r| ==> r[i] == if i in arrivals then SlotOf(ps[i], tracksOf) else slots[i]
    decreases |arrivals|
  {
    if |arrivals| == 0 then slots
    else
      var k := arrivals[0];
      Place(slots[k := SlotOf(ps[k], tracksOf)], ps, tracksOf, arrivals[1..])
  }

  predicate Named(p: PlaylistData)
  {
    p.name != ""
  }

  /** The sequential reading: each playlist in turn, kept when its tracks
      were fetched and it has a name. */
  function Fetched(ps: seq<SimplePlaylist>, tracksOf: string -> Result<JValue>): (r: seq<PlaylistData>)
    ensures |r| <= |ps|
    ensures forall i :: 0 <= i < |r| ==> r[i].name != ""
  {
    if |ps| == 0 then []
    else
      var p := ps[|ps| - 1];
      var rest := Fetched(ps[..|ps| - 1], tracksOf);
      if tracksOf(p.id).Ok? && p.name != "" then rest + [SlotOf(p, tracksOf)] else rest
  }

  /** Fetching a list is fetching its two halves one after the other:
      playlists come out in their original order. */
  lemma {:induction false} FetchedConcat(ps: seq<SimplePlaylist>, qs: seq<SimplePlaylist>, tracksOf: string -> Result<JValue>)
    ensures Fetched(ps + qs, tracksOf) == Fetched(ps, tracksOf) + Fetched(qs, tracksOf)
  {
    if |qs| > 0 {
      var q := qs[|qs| - 1];
      assert (ps + qs)[..|ps + qs| - 1] == ps + qs[..|qs| - 1];
      FetchedConcat(ps, qs[..|qs| - 1], tracksOf);
    } else {
      assert ps + qs == ps;
    }
  }

  /** A playlist is in the result exactly when its tracks were fetched and
      it has a name. */
  lemma {:induction false} FetchedMember(ps: seq<SimplePlaylist>, tracksOf: string -> Result<JValue>, p: SimplePlaylist)
    ensures SlotOf(p, tracksOf) in Fetched(ps, tracksOf) <==> p in ps && tracksOf(p.id).Ok? && p.name != ""
    ensures p in ps && tracksOf(p.id).Ok? && p.name != "" ==> SlotOf(p, tracksOf) in Fetched(ps, tracksOf)
  {
    if |ps| > 0 {
      var init := ps[..|ps| - 1];
      var last := ps[|ps| - 1];
      FetchedMember(init, tracksOf, p);
      assert ps == init + [last];
      if SlotOf(p, tracksOf) in Fetched(ps, tracksOf) && SlotOf(p, tracksOf) !in Fetched(init, tracksOf) {
        assert SlotOf(p, tracksOf) == SlotOf(last, tracksOf);
        assert tracksOf(last.id).Ok? && last.name != "";
        assert p.name == last.name && p.id == last.id;
        assert p == last by {
          assert SlotOf(p, tracksOf).owner == p.owner && SlotOf(last, tracksOf).owner == last.owner;
          assert SlotOf(p, tracksOf).public == p.public && SlotOf(last, tracksOf).public == last.public;
        }
      }
    }
  }

  /** Filtering the slots in index order is the sequential reading. */
  lemma {:induction false} SlotsFiltered(ps: seq<SimplePlaylist>, tracksOf: string -> Result<JValue>)
    ensures Filter(seq(|ps|, i requires 0 <= i < |ps| => SlotOf(ps[i], tracksOf)), Named) == Fetched(ps, tracksOf)
  {
    var slots := seq(|ps|, i requires 0 <= i < |ps| => SlotOf(ps[i], tracksOf));
    if |ps| > 0 {
      var init := ps[..|ps| - 1];
      SlotsFiltered(init, tracksOf);
      assert slots[..|ps| - 1] == seq(|init|, i requires 0 <= i < |init| => SlotOf(init[i], tracksOf));
    }
  }

  /** The `[]playlistData` the fetch returns. Go tells a nil slice from an
      empty one: `encoding/json` writes the first as null and the second
      as []. */
  datatype PlaylistSlice = NilSlice | Slice(items: seq<PlaylistData>)

  /** The playlists a slice holds; a nil slice holds none. */
  function Elements(p: PlaylistSlice): seq<PlaylistData>
  {
    if p.NilSlice? then [] else p.items
  }

  /** `fetchPlaylistsConcurrent`. `arrivals` is the order in which the
      per-playlist results come back; every index comes back. An empty
      listing returns an empty slice; otherwise the named playlists are
      appended to a nil slice, which stays nil when no fetch succeeded. */
  function FetchPlaylists(
    list: Result<seq<SimplePlaylist>>, tracksOf: string -> Result<JValue>, arrivals: seq<nat>)
    : (r: Result<PlaylistSlice>)
    requires list.Ok? ==> forall k :: 0 <= k < |arrivals| ==> arrivals[k] < |list.value|
    requires list.Ok? ==> forall i :: 0 <= i < |list.value| ==> i in arrivals
    ensures r.Err? <==> list.Err?
    ensures list.Err? ==> r.error == "failed to get playlists: " + list.error
    ensures r.Ok? ==> Elements(r.value) == Fetched(list.value, tracksOf)
    ensures r.Ok? && |list.value| == 0 ==> r.value == Slice([])
    ensures r.Ok? && |list.value| > 0 ==> (r.value.NilSlice? <==> Fetched(list.value, tracksOf) == [])
  {
    match list
    case Err(e) => Err("failed to get playlists: " + e)
    case Ok(ps) =>
      if |ps| == 0 then Ok(Slice([]))
      else
        var placed := Place(seq(|ps|, i => NoPlaylist), ps, tracksOf, arrivals);
        assert placed == seq(|ps|, i requires 0 <= i < |ps| => SlotOf(ps[i], tracksOf));
        SlotsFiltered(ps, tracksOf);
        var valid := Filter(placed, Named);
        if |valid| == 0 then Ok(NilSlice) else Ok(Slice(valid))
  }

  /** `playlistData` as `encoding/json` writes it, by its field tags. */
  function PlaylistJson(p: PlaylistData): JValue
  {
    JObj([Member("id", JStr(p.id)), Member("name", JStr(p.name)), Member("owner", JStr(p.owner)),
          Member("public", JBool(p.public)), Member("tracks", p.tracks)])
  }

  /** The slice as `encoding/json` writes it. */
  function PlaylistsJson(p: PlaylistSlice): (r: JValue)
    ensures r.JNull? <==> p.NilSlice?
    ensures p.Slice? ==> r.JArr? && |r.items| == |p.items|
    ensures p.Slice? ==> forall i :: 0 <= i < |p.items| ==> r.items[i] == PlaylistJson(p.items[i])
  {
    if p.NilSlice? then JNull else JArr(Map(p.items, PlaylistJson))
  }

  /** What the query engine later loads from the written playlists: no rows
      for an empty listing, the playlists fetched when some fetch succeeded,
      and a single nil row when every fetch failed. */
  lemma PlaylistRowsLoaded(
    list: Result<seq<SimplePlaylist>>, tracksOf: string -> Result<JValue>, arrivals: seq<nat>)
    requires list.Ok?
    requires forall k :: 0 <= k < |arrivals| ==> arrivals[k] < |list.value|
    requires forall i :: 0 <= i < |list.value| ==> i in arrivals
    ensures var rows := QueryEngine.Rows(PlaylistsJson(FetchPlaylists(list, tracksOf, arrivals).value));
      (|list.value| == 0 ==> rows == [])
      && (|list.value| > 0 && Fetched(list.value, tracksOf) == [] ==> rows == [JNull])
      && (Fetched(list.value, tracksOf) != [] ==> rows == Map(Fetched(list.value, tracksOf), PlaylistJson))
  {
  }

  // ---------------------------------------------------------------------
  // Choosing the backup to restore

  /** `Timestamp.After`: `a` is newer than `b`. */
  predicate Newer(a: BackupMetadata, b: BackupMetadata)
  {
    a.timestamp > b.timestamp
  }

  /** The backups sorted newest first. */
  /** Timestamps never increase along `bs`. */
  predicate NewestToOldest(bs: seq<BackupMetadata>)
  {
    forall i, j :: 0 <= i < j < |bs| ==> bs[i].timestamp >= bs[j].timestamp
  }

  function NewestFirst(backups: seq<BackupMetadata>): (r: seq<BackupMetadata>)
    ensures multiset(r) == multiset(backups)
    ensures NewestToOldest(r)
  {
    SortSorted(Newer, backups);
    Sort(Newer, backups)
  }

  /** What a restore is asked for: its argument, or "latest". */
  function RestoreTarget(args: seq<string>): (r: string)
    ensures |args| == 0 ==> r == "latest"
    ensures |args| > 0 ==> r == args[0]
  {
    if |args| > 0 then args[0] else "latest"
  }

  /** A backup answers to an ID that equals or occurs in its own. */
  predicate Matches(b: BackupMetadata, backupId: string)
  {
    b.id == backupId || Contains(b.id, backupId)
  }

  function AnswersTo(backupId: string): BackupMetadata -> bool
  {
    b => Matches(b, backupId)
  }

  /** The position of the first backup satisfying `p`, or `|bs|` when none
      does. */
  function FirstWhere(bs: seq<BackupMetadata>, p: BackupMetadata -> bool): (r: nat)
    ensures r <= |bs|
    ensures r < |bs| ==> p(bs[r])
    ensures forall j :: 0 <= j < r ==> !p(bs[j])
  {
    if |bs| == 0 then 0
    else if p(bs[0]) then 0
    else 1 + FirstWhere(bs[1..], p)
  }

  const NoBackupsMessage: string := "No backups available to restore."

  /** No backup satisfying `p` is newer than `b`. */
  predicate NoneNewer(b: BackupMetadata, backups: seq<BackupMetadata>, p: BackupMetadata -> bool)
  {
    forall i :: 0 <= i < |backups| && p(backups[i]) ==> backups[i].timestamp <= b.timestamp
  }

  predicate SomeWhere(backups: seq<BackupMetadata>, p: BackupMetadata -> bool)
  {
    exists i :: 0 <= i < |backups| && p(backups[i])
  }

  /** In a newest-to-oldest reordering of `backups`, the first entry
      satisfying `p` is a backup that satisfies it and none satisfying it
      is newer. */
  lemma FoundIsNewest(sorted: seq<BackupMetadata>, backups: seq<BackupMetadata>, p: BackupMetadata -> bool, k: nat)
    requires multiset(sorted) == multiset(backups) && NewestToOldest(sorted)
    requires k < |sorted| && p(sorted[k])
    requires forall j :: 0 <= j < k ==> !p(sorted[j])
    ensures sorted[k] in backups && SomeWhere(backups, p) && NoneNewer(sorted[k], backups, p)
  {
    assert sorted[k] in multiset(backups);
    var i :| 0 <= i < |backups| && backups[i] == sorted[k];
    assert p(backups[i]);
    forall i | 0 <= i < |backups| && p(backups[i])
      ensures backups[i].timestamp <= sorted[k].timestamp
    {
      assert backups[i] in multiset(sorted);
      var j :| 0 <= j < |sorted| && sorted[j] == backups[i];
      assert p(sorted[j]);
      if j != k {
        assert k < j;
      }
    }
  }

  /** When no entry of a reordering satisfies `p`, no backup does. */
  lemma NoneFound(sorted: seq<BackupMetadata>, backups: seq<BackupMetadata>, p: BackupMetadata -> bool)
    requires multiset(sorted) == multiset(backups)
    requires forall j :: 0 <= j < |sorted| ==> !p(sorted[j])
    ensures !SomeWhere(backups, p)
  {
    forall i | 0 <= i < |backups|
      ensures !p(backups[i])
    {
      assert backups[i] in multiset(sorted);
      var j :| 0 <= j < |sorted| && sorted[j] == backups[i];
    }
  }

  /** The first backup satisfying `p` in the newest-first order is the
      newest one that does, and when there is none no backup does. */
  lemma FirstWhereIsNewest(backups: seq<BackupMetadata>, p: BackupMetadata -> bool)
    ensures var sorted := NewestFirst(backups);
      var k := FirstWhere(sorted, p);
      && (k < |sorted| <==> SomeWhere(backups, p))
      && (k < |sorted| ==> sorted[k] in backups && NoneNewer(sorted[k], backups, p))
  {
    var sorted := NewestFirst(backups);
    var k := FirstWhere(sorted, p);
    if k < |sorted| {
      FoundIsNewest(sorted, backups, p, k);
    } else {
      NoneFound(sorted, backups, p);
    }
  }

  /** Any backup: the predicate every backup satisfies. */
  function AnyBackup(): BackupMetadata -> bool
  {
    b => true
  }

  /** The backup `restoreBackup` selects: the newest, or the newest that
      answers to the argument. */
  function SelectBackup(backups: seq<BackupMetadata>, args: seq<string>): (r: Result<BackupMetadata>)
    ensures |backups| == 0 ==> r == Err(NoBackupsMessage)
    ensures r.Ok? ==> r.value in backups
    ensures |backups| > 0 && RestoreTarget(args) == "latest" ==> r.Ok? && NoneNewer(r.value, backups, AnyBackup())
    ensures |backups| > 0 && RestoreTarget(args) != "latest" ==>
      (r.Ok? <==> SomeWhere(backups, AnswersTo(RestoreTarget(args))))
    ensures r.Ok? && RestoreTarget(args) != "latest" ==>
      Matches(r.value, RestoreTarget(args)) && NoneNewer(r.value, backups, AnswersTo(RestoreTarget(args)))
    ensures |backups| > 0 && r.Err? ==> r.error == "Backup not found: " + RestoreTarget(args)
  {
    if |backups| == 0 then Err(NoBackupsMessage)
    else
      var sorted := NewestFirst(backups);
      var target := RestoreTarget(args);
      if target == "latest" then
        FirstWhereIsNewest(backups, AnyBackup());
        Ok(sorted[0])
      else
        var k := FirstWhere(sorted, AnswersTo(target));
        FirstWhereIsNewest(backups, AnswersTo(target));
        if k == |sorted| then Err("Backup not found: " + target)
        else Ok(sorted[k])
  }

  // ---------------------------------------------------------------------
  // Restoring

  /** Decoding a backup file into `map[string]interface{}`: an object gives
      its members, `null` leaves the map empty, anything else is a type
      error. */
  function BackupObject(v: JValue): (r: Result<seq<Member>>)
    ensures r.Ok? <==> v.JObj? || v.JNull?
    ensures v.JObj? ==> r == Ok(v.fields)
    ensures r.Err? ==> "failed to decode backup JSON: json: cannot unmarshal " <= r.error
  {
    match v
    case JObj(fields) => Ok(fields)
    case JNull => Ok([])
    case _ =>
      Err("failed to decode backup JSON: json: cannot unmarshal " + KindName(v)
        + " into Go value of type map[string]interface {}")
  }

  /** The JSON kind `encoding/json` names in a type error. */
  function KindName(v: JValue): string
  {
    match v
    case JNull => "null"
    case JBool(_) => "bool"
    case JNum(_) => "number"
    case JStr(_) => "string"
    case JArr(_) => "array"
    case JObj(_) => "object"
  }

  /** `countItems`: the length of a list, 0 for anything else. */
  function CountItems(v: JValue): (r: nat)
    ensures v.JArr? ==> r == |v.items|
    ensures !v.JArr? ==> r == 0
  {
    if v.JArr? then |v.items| else 0
  }

  /** The three keys a restore looks for, in the order it looks. */
  const RestoreKeys: seq<string> := [TracksKey, PlaylistsKey, ArtistsKey]

  /** One data file to write back. */
  datatype RestoreItem = RestoreItem(key: string, fileName: string, data: JValue)

  /** The item for one key, when the backup has it. */
  function PlanKey(fields: seq<Member>, k: string): (r: seq<RestoreItem>)
    ensures |r| <= 1
    ensures |r| == 1 <==> Lookup(fields, k).Some?
    ensures |r| == 1 ==> r[0] == RestoreItem(k, k + JsonExt, Lookup(fields, k).value)
  {
    match Lookup(fields, k)
    case Some(v) => [RestoreItem(k, k + JsonExt, v)]
    case None => []
  }

  /** A planned item writes `key` to `<key>.json` with what the backup
      holds under it. */
  predicate PlannedFrom(item: RestoreItem, fields: seq<Member>)
  {
    item.key in RestoreKeys && item.fileName == item.key + JsonExt && Lookup(fields, item.key) == Some(item.data)
  }

  /** Some item of the plan restores `k`. */
  predicate Planned(plan: seq<RestoreItem>, k: string)
  {
    exists i :: 0 <= i < |plan| && plan[i].key == k
  }

  /** The files a restore writes: each of the three keys present in the
      backup, to `<key>.json`, and nothing else. */
  function RestorePlan(fields: seq<Member>): (r: seq<RestoreItem>)
    ensures |r| <= 3
    ensures forall i :: 0 <= i < |r| ==> PlannedFrom(r[i], fields)
    ensures Planned(r, TracksKey) <==> Lookup(fields, TracksKey).Some?
    ensures Planned(r, PlaylistsKey) <==> Lookup(fields, PlaylistsKey).Some?
    ensures Planned(r, ArtistsKey) <==> Lookup(fields, ArtistsKey).Some?
  {
    var a, b, c := PlanKey(fields, TracksKey), PlanKey(fields, PlaylistsKey), PlanKey(fields, ArtistsKey);
    PlanParts(a, b, c, fields);
    a + b + c
  }

  lemma PlanParts(a: seq<RestoreItem>, b: seq<RestoreItem>, c: seq<RestoreItem>, fields: seq<Member>)
    requires a == PlanKey(fields, TracksKey) && b == PlanKey(fields, PlaylistsKey) && c == PlanKey(fields, ArtistsKey)
    ensures forall i :: 0 <= i < |a + b + c| ==> PlannedFrom((a + b + c)[i], fields)
    ensures Planned(a + b + c, TracksKey) <==> |a| == 1
    ensures Planned(a + b + c, PlaylistsKey) <==> |b| == 1
    ensures Planned(a + b + c, ArtistsKey) <==> |c| == 1
  {
    var r := a + b + c;
    assert forall i :: 0 <= i < |r| ==> r[i] in a || r[i] in b || r[i] in c;
    if |a| == 1 { assert r[0].key == TracksKey; }
    if |b| == 1 { assert r[|a|].key == PlaylistsKey; }
    if |c| == 1 { assert r[|a| + |b|].key == ArtistsKey; }
  }

  /** The outcome of the writes: the file names written with their item
      counts, and "<key>: <error>" for each failed write. */
  datatype RestoreReport = RestoreReport(restored: seq<(string, nat)>, errors: seq<string>)

  /** Writing back the planned files; `save` gives the error, if any, of
      writing one data file. */
  function WriteBack(plan: seq<RestoreItem>, save: string -> Option<string>): (r: RestoreReport)
    ensures |r.restored| + |r.errors| == |plan|
    ensures |r.errors| == 0 <==> forall i :: 0 <= i < |plan| ==> save(plan[i].fileName).None?
    ensures forall i :: 0 <= i < |r.restored| ==>
      exists j :: 0 <= j < |plan| && r.restored[i] == (plan[j].fileName, CountItems(plan[j].data))
  {
    if |plan| == 0 then RestoreReport([], [])
    else
      var item := plan[|plan| - 1];
      var rest := WriteBack(plan[..|plan| - 1], save);
      assert forall i :: 0 <= i < |plan| - 1 ==> plan[..|plan| - 1][i] == plan[i];
      match save(item.fileName)
      case Some(e) => RestoreReport(rest.restored, rest.errors + [item.key + ": " + e])
      case None => RestoreReport(rest.restored + [(item.fileName, CountItems(item.data))], rest.errors)
  }

  /** How `restoreBackup` ends. */
  datatype RestoreOutcome =
    | ListFailed(error: string)
    | NoBackups
    | NotFound(backupId: string)
    | LoadFailed(error: string)
    | Restored(selected: BackupMetadata, report: RestoreReport)

  /** `restoreBackup`: list, select, load, write back. */
  function RestoreBackup(
    s: Store, dir: DirListing, args: seq<string>, fs: string -> FileContent, save: string -> Option<string>)
    : (r: RestoreOutcome)
    ensures dir.ReadFailed? <==> r.ListFailed?
    ensures r.NoBackups? <==> ListBackups(dir) == Ok([])
    ensures r.NotFound? ==> r.backupId == RestoreTarget(args) && r.backupId != "latest"
    ensures r.Restored? ==> SelectBackup(ListBackups(dir).value, args) == Ok(r.selected)
    ensures (ListBackups(dir).Ok? && |ListBackups(dir).value| > 0
             && SelectBackup(ListBackups(dir).value, args).Err?) ==> r == NotFound(RestoreTarget(args))
    ensures ListBackups(dir).Ok? && SelectBackup(ListBackups(dir).value, args).Ok? ==>
      var b := SelectBackup(ListBackups(dir).value, args).value;
      var loaded := LoadBackupJson(s, b.id, fs);
      (loaded.Err? ==> r == LoadFailed(loaded.error))
      && (loaded.Ok? && BackupObject(loaded.value).Err? ==> r == LoadFailed(BackupObject(loaded.value).error))
      && (loaded.Ok? && BackupObject(loaded.value).Ok? ==>
            r == Restored(b, WriteBack(RestorePlan(BackupObject(loaded.value).value), save)))
  {
    match ListBackups(dir)
    case Err(e) => ListFailed(e)
    case Ok(backups) =>
      if |backups| == 0 then NoBackups
      else
        match SelectBackup(backups, args)
        case Err(_) => NotFound(RestoreTarget(args))
        case Ok(b) =>
          match LoadBackupJson(s, b.id, fs)
          case Err(e) => LoadFailed(e)
          case Ok(v) =>
            match BackupObject(v)
            case Err(e) => LoadFailed(e)
            case Ok(fields) => Restored(b, WriteBack(RestorePlan(fields), save))
  }

  /** The plan for data holding exactly the successful fetches among the
      started ones restores exactly those kinds, each with the data fetched,
      under its own name. */
  lemma PlanOfFetched(data: seq<Member>, started: seq<string>, fetch: string -> Result<JValue>)
    requires HoldsFetched(data, started, fetch)
    ensures forall k :: k in RestoreKeys ==>
      (Planned(RestorePlan(data), k) <==> k in started && fetch(k).Ok?)
    ensures forall i :: 0 <= i < |RestorePlan(data)| ==>
      RestorePlan(data)[i].data == fetch(RestorePlan(data)[i].key).value
      && RestorePlan(data)[i].fileName == RestorePlan(data)[i].key + JsonExt
  {
    var plan := RestorePlan(data);
    assert Lookup(data, TracksKey) == if TracksKey in started && fetch(TracksKey).Ok? then Some(fetch(TracksKey).value) else None;
    assert Lookup(data, PlaylistsKey) == if PlaylistsKey in started && fetch(PlaylistsKey).Ok? then Some(fetch(PlaylistsKey).value) else None;
    assert Lookup(data, ArtistsKey) == if ArtistsKey in started && fetch(ArtistsKey).Ok? then Some(fetch(ArtistsKey).value) else None;
    forall i | 0 <= i < |plan|
      ensures plan[i].data == fetch(plan[i].key).value
    {
      assert PlannedFrom(plan[i], data);
      var k := plan[i].key;
      assert Lookup(data, k) == if k in started && fetch(k).Ok? then Some(fetch(k).value) else None;
    }
  }

  /** Restoring what a backup collected writes back exactly the kinds that
      were fetched successfully, each with the data fetched, to the same
      file the backup saved it to. */
  lemma RestoreAfterBackup(backupType: string, fetch: string -> Result<JValue>, arrival: seq<string>, s: Store)
    requires multiset(arrival) == multiset(Launched(SelectKinds(backupType)))
    requires CollectBackup(backupType, fetch, arrival).Ok?
    ensures var data := CollectBackup(backupType, fetch, arrival).value.data;
      forall k :: k in RestoreKeys ==>
        (Planned(RestorePlan(data), k) <==> k in Launched(SelectKinds(backupType)) && fetch(k).Ok?)
    ensures var data := CollectBackup(backupType, fetch, arrival).value.data;
      forall i :: 0 <= i < |RestorePlan(data)| ==>
        RestorePlan(data)[i].data == fetch(RestorePlan(data)[i].key).value
        && PathJoin(s.dataDir, RestorePlan(data)[i].fileName) == DataFile(s, RestorePlan(data)[i].key)
  {
    var data := CollectBackup(backupType, fetch, arrival).value.data;
    PlanOfFetched(data, Launched(SelectKinds(backupType)), fetch);
  }
}
