/** The query engine's entry point `Execute` (load, filter, dispatch) and
    the music-specific queries built on it. Reading and decoding the source
    file is the `read` parameter: the decoded document, or the error text. */
module QueryEngine {
  import opened Wrappers
  import opened Json
  import Seqs
  import JsonUtil
  import Text
  import opened QueryPath
  import opened QueryValues
  import opened QueryOps

  /** The path `loadData` reads: relative names without a drive or scheme
      colon are placed under the data directory. */
  function SourcePath(dataDir: string, source: string): (r: string)
    ensures r == source || r == dataDir + "/" + source
    ensures r != source <==> dataDir != "" && !(|source| > 0 && source[0] == '/') && ':' !in source
  {
    if dataDir != "" && !(|source| > 0 && source[0] == '/') && ':' !in source then dataDir + "/" + source
    else source
  }

  /** The rows of a decoded document: an array is its elements, anything
      else (an object, a scalar, null) is a single row. */
  function Rows(v: JValue): (r: seq<JValue>)
    ensures v.JArr? ==> r == v.items
    ensures !v.JArr? ==> r == [v]
  {
    if v.JArr? then v.items else [v]
  }

  const Operations: set<string> :=
    {"select", "count", "aggregate", "search", "filter", "sort", "distinct", "stats", "sample"}

  /** The queries `Execute` answers with an error once the data is loaded. */
  predicate Rejected(q: Query)
  {
    q.operation !in Operations
    || (q.operation == "aggregate" && q.aggFunc !in AggFuncs)
    || (q.operation == "search" && q.searchTerm == "")
    || (q.operation == "sort" && q.sortBy == "")
    || (q.operation == "distinct" && q.field == "")
  }

  /** The operation dispatch of `Execute` on the filtered rows. */
  function Run(env: Env, data: seq<JValue>, q: Query): (r: QueryResult)
    ensures r.error != "" <==> Rejected(q)
    ensures q.operation !in Operations ==> r == Failure("unknown operation: " + q.operation)
    ensures q.operation == "count" ==> r.count == |data|
  {
    match q.operation
    case "select" => SelectOp(env, data, q)
    case "count" => CountOp(data)
    case "aggregate" => AggregateOp(env, data, q)
    case "search" => SearchOp(env, data, q)
    case "filter" => SelectOp(env, data, q)
    case "sort" => SortOp(env, data, q)
    case "distinct" => DistinctOp(env, data, q)
    case "stats" => StatsOp(env, data, q)
    case "sample" => SampleOp(data, q)
    case _ => Failure("unknown operation: " + q.operation)
  }

  /** A search query runs `searchOp`. */
  lemma RunsSearch(env: Env, data: seq<JValue>, q: Query)
    requires q.operation == "search"
    ensures Run(env, data, q) == SearchOp(env, data, q)
  {
  }

  /** A sort query runs `sortOp`. */
  lemma RunsSort(env: Env, data: seq<JValue>, q: Query)
    requires q.operation == "sort"
    ensures Run(env, data, q) == SortOp(env, data, q)
  {
  }

  /** A distinct query runs `distinctOp`. */
  lemma RunsDistinct(env: Env, data: seq<JValue>, q: Query)
    requires q.operation == "distinct"
    ensures Run(env, data, q) == DistinctOp(env, data, q)
  {
  }

  /** `Execute`: load the rows, apply the filters, run the operation. The
      result carries an error exactly when loading failed or the query is
      rejected. */
  function Execute(env: Env, read: string -> Result<JValue>, dataDir: string, q: Query): (r: QueryResult)
    ensures r.error != "" <==> read(SourcePath(dataDir, q.source)).Err? || Rejected(q)
    ensures read(SourcePath(dataDir, q.source)).Err? ==>
      r == Failure("failed to load data: " + read(SourcePath(dataDir, q.source)).error)
    ensures read(SourcePath(dataDir, q.source)).Ok? ==>
      r == Run(env, ApplyFilters(env, Rows(read(SourcePath(dataDir, q.source)).value), q.filters), q)
  {
    match read(SourcePath(dataDir, q.source))
    case Err(e) => Failure("failed to load data: " + e)
    case Ok(doc) => Run(env, ApplyFilters(env, Rows(doc), q.filters), q)
  }

  /** A query with every optional field at its zero value. */
  function Plain(source: string, operation: string): Query
  {
    Query(source, operation, "", [], "", "", 0, 0, "", "", "")
  }

  /** The rows of `file` as loaded, when it loads. */
  function Loaded(read: string -> Result<JValue>, dataDir: string, file: string): (r: seq<JValue>)
    requires read(SourcePath(dataDir, file)).Ok?
    ensures read(SourcePath(dataDir, file)).value.JArr? ==> r == read(SourcePath(dataDir, file)).value.items
  {
    Rows(read(SourcePath(dataDir, file)).value)
  }

  /** `GetAllArtists`: a distinct query of "track.artists.name" over the
      saved tracks. That path yields one list of artist names per track, so
      the result holds the distinct per-track lists (by their `%v`
      rendering), one for each rendering, in track order. */
  function GetAllArtists(env: Env, read: string -> Result<JValue>, dataDir: string): (r: QueryResult)
    ensures r.error != "" <==> read(SourcePath(dataDir, "saved_tracks.json")).Err?
    ensures r.error == "" ==>
      r.data.Items? && r.count == |r.data.items|
      && r.data.items == DistinctValues(env, Loaded(read, dataDir, "saved_tracks.json"), "track.artists.name")
  {
    var q := Plain("saved_tracks.json", "distinct").(field := "track.artists.name");
    if read(SourcePath(dataDir, q.source)).Ok? then
      RunsDistinct(env, ApplyFilters(env, Loaded(read, dataDir, q.source), q.filters), q);
      Execute(env, read, dataDir, q)
    else Execute(env, read, dataDir, q)
  }

  /** An artist record with the given name. */
  function Artist(name: string): JValue
  {
    JObj([Member("name", JStr(name))])
  }

  /** A saved track by the two artists `a` and `b`. */
  function TwoArtistTrack(a: string, b: string): JValue
  {
    JObj([Member("track", JObj([Member("artists", JArr([Artist(a), Artist(b)]))]))])
  }

  /** A three-segment dot path splits into its segments. */
  lemma SplitThree(x: string, y: string, z: string)
    requires '.' !in x && '.' !in y && '.' !in z
    ensures Text.Split(x + ['.'] + y + ['.'] + z, '.') == [x, y, z]
  {
    assert x + ['.'] + y + ['.'] + z == x + ['.'] + (y + ['.'] + z);
    Text.SplitPrefix(x, y + ['.'] + z, '.');
    Text.SplitPrefix(y, z, '.');
    Text.SplitFree(z, '.');
  }

  /** The "name" step on an artist record is its name. */
  lemma ArtistStep(a: string, part: string)
    requires part == "name"
    ensures Step(Artist(a), part) == JStr(a)
  {
    assert [part][1..] == [];
    assert Walk(Artist(a), [part]) == Walk(JStr(a), []);
  }

  /** The "name" step over the two artist records. */
  lemma TwoArtistNames(a: string, b: string, part: string)
    requires part == "name"
    ensures Gather([Artist(a), Artist(b)], part) == [JStr(a), JStr(b)]
  {
    ArtistStep(a, part);
    ArtistStep(b, part);
    var steps := Steps([Artist(a), Artist(b)], part);
    assert steps == [JStr(a), JStr(b)];
    assert Seqs.Filter(steps, NotNull) == Seqs.Filter(steps[..1], NotNull) + [JStr(b)];
    assert steps[..1][..0] == [];
  }

  /** "name" is a key, not an index. */
  lemma NameIsKey(part: string)
    requires part == "name"
    ensures ParseIndex(part).None?
  {
    assert part == ['n', 'a', 'm', 'e'];
    assert forall i :: 0 <= i < |part| ==> !Text.IsDigit(part[i]);
    NoDigitsNoIndex(part);
  }

  /** The "name" segment on the artist list gathers both names. */
  lemma ArtistListWalk(a: string, b: string, part: string)
    requires part == "name"
    ensures Walk(JArr([Artist(a), Artist(b)]), [part]) == JArr([JStr(a), JStr(b)])
  {
    TwoArtistNames(a, b, part);
    NameIsKey(part);
    KeySegmentGathers([Artist(a), Artist(b)], part);
  }

  /** Two object keys then a third segment: the walk descends both objects. */
  lemma WalkTwoKeys(x: string, y: string, z: string, v: JValue)
    ensures Walk(JObj([Member(x, JObj([Member(y, v)]))]), [x, y, z]) == Walk(v, [z])
  {
    assert [x, y, z][1..] == [y, z];
    assert [y, z][1..] == [z];
  }

  /** The artists path walked on that track is the list of both names. */
  lemma TwoArtistPath(a: string, b: string)
    ensures GetFieldValue(TwoArtistTrack(a, b), "track.artists.name") == JArr([JStr(a), JStr(b)])
  {
    var x, y, z := "track", "artists", "name";
    assert "track.artists.name" == x + ['.'] + y + ['.'] + z;
    SplitThree(x, y, z);
    ArtistListWalk(a, b, z);
    WalkTwoKeys(x, y, z, JArr([Artist(a), Artist(b)]));
  }

  /** `GetAllArtists` as written does not list artists: a library holding
      one track by `a` and `b` gives the single item [a, b], never `a` and
      `b` on their own. */
  lemma AllArtistsGivesLists(env: Env, dataDir: string, a: string, b: string)
    ensures var r := GetAllArtists(env, _ => Ok(JArr([TwoArtistTrack(a, b)])), dataDir);
      r.error == "" && r.data.items == [JArr([JStr(a), JStr(b)])]
  {
    TwoArtistPath(a, b);
    var keys := Keys([TwoArtistTrack(a, b)], "track.artists.name");
    assert keys == [JArr([JStr(a), JStr(b)])];
    assert Seqs.DistinctBy(keys, env.render) == keys by {
      assert keys[..0] == [];
    }
  }

  /** The artist names of one row: those of a track record, none otherwise. */
  function RowArtistsOf(row: JValue): seq<string>
  {
    if row.JObj? then JsonUtil.GetTrackArtists(row.fields) else []
  }

  /** `name` is an artist of some saved track among `rows`. */
  ghost predicate ArtistOfSomeRow(rows: seq<JValue>, name: string)
  {
    Seqs.InSome(rows, RowArtistsOf, name)
  }

  function AsJson(s: string): JValue
  {
    JStr(s)
  }

  /** The names of distinct strings as JSON strings, which stay distinct. */
  lemma NamesAsStrings(names: seq<string>, name: string)
    ensures JStr(name) in Seqs.Map(names, AsJson) <==> name in names
  {
    if name in names {
      var i :| 0 <= i < |names| && names[i] == name;
      assert Seqs.Map(names, AsJson)[i] == JStr(name);
    }
  }

  /** What the comment on `GetAllArtists` promises ("all unique artists"):
      every artist name of the saved tracks exactly once, in order of first
      appearance. */
  function GetAllArtistNames(read: string -> Result<JValue>, dataDir: string): (r: QueryResult)
    ensures r.error != "" <==> read(SourcePath(dataDir, "saved_tracks.json")).Err?
    ensures r.error == "" ==>
      r.data.Items? && r.count == |r.data.items|
      && (forall i :: 0 <= i < |r.data.items| ==> r.data.items[i].JStr?)
      && (forall i, j :: 0 <= i < j < |r.data.items| ==> r.data.items[i] != r.data.items[j])
      && (forall name :: JStr(name) in r.data.items <==>
            ArtistOfSomeRow(Loaded(read, dataDir, "saved_tracks.json"), name))
  {
    match read(SourcePath(dataDir, "saved_tracks.json"))
    case Err(e) => Failure("failed to load data: " + e)
    case Ok(doc) =>
      var all := Seqs.FlatMap(Rows(doc), RowArtistsOf);
      var names := Seqs.DistinctBy(all, s => s);
      var items := Seqs.Map(names, AsJson);
      assert forall name :: JStr(name) in items <==> ArtistOfSomeRow(Rows(doc), name) by {
        forall name
          ensures JStr(name) in items <==> ArtistOfSomeRow(Rows(doc), name)
        {
          NamesAsStrings(names, name);
          Seqs.InFlatMap(Rows(doc), RowArtistsOf, name);
          assert name in names <==> name in Seqs.KeySet(names, s => s);
          assert name in all <==> name in Seqs.KeySet(all, s => s);
        }
      }
      QueryResult(|items|, Items(items), "")
  }

  /** `GetTracksByArtist`: exactly the saved tracks whose artist names
      contain the name, in file order. */
  function GetTracksByArtist(env: Env, read: string -> Result<JValue>, dataDir: string, artistName: string): (r: QueryResult)
    ensures r.error != "" <==> read(SourcePath(dataDir, "saved_tracks.json")).Err? || artistName == ""
    ensures r.error == "" ==> r.data.Items? && Seqs.Filtered(r.data.items,
      Loaded(read, dataDir, "saved_tracks.json"), ItemMatches(env, env.lower(artistName), "track.artists.name"))
  {
    var q := Plain("saved_tracks.json", "search").(field := "track.artists.name", searchTerm := artistName);
    if read(SourcePath(dataDir, q.source)).Ok? then
      RunsSearch(env, ApplyFilters(env, Loaded(read, dataDir, q.source), q.filters), q);
      MatchingRowsFiltered(env, Loaded(read, dataDir, q.source), artistName, "track.artists.name");
      Execute(env, read, dataDir, q)
    else Execute(env, read, dataDir, q)
  }

  /** `GetPlaylistByName`: exactly the playlists whose name contains the
      given text, in file order. */
  function GetPlaylistByName(env: Env, read: string -> Result<JValue>, dataDir: string, name: string): (r: QueryResult)
    ensures r.error != "" <==> read(SourcePath(dataDir, "playlists.json")).Err? || name == ""
    ensures r.error == "" ==> r.data.Items? && Seqs.Filtered(r.data.items,
      Loaded(read, dataDir, "playlists.json"), ItemMatches(env, env.lower(name), "name"))
  {
    var q := Plain("playlists.json", "search").(field := "name", searchTerm := name);
    if read(SourcePath(dataDir, q.source)).Ok? then
      RunsSearch(env, ApplyFilters(env, Loaded(read, dataDir, q.source), q.filters), q);
      MatchingRowsFiltered(env, Loaded(read, dataDir, q.source), name, "name");
      Execute(env, read, dataDir, q)
    else Execute(env, read, dataDir, q)
  }

  /** `GetRecentlyAddedTracks`: the saved tracks sorted by "added_at", newest
      first, cut to the first `limit`. */
  function GetRecentlyAddedTracks(env: Env, read: string -> Result<JValue>, dataDir: string, limit: int): (r: QueryResult)
    ensures r.error != "" <==> read(SourcePath(dataDir, "saved_tracks.json")).Err?
    ensures r.error == "" ==> r.data.Items? && Seqs.LimitedTo(r.data.items,
      SortData(env, Loaded(read, dataDir, "saved_tracks.json"), "added_at", "desc"), limit)
  {
    var q := Plain("saved_tracks.json", "sort").(sortBy := "added_at", sortOrder := "desc", limit := limit);
    if read(SourcePath(dataDir, q.source)).Ok? then
      RunsSort(env, ApplyFilters(env, Loaded(read, dataDir, q.source), q.filters), q);
      Execute(env, read, dataDir, q)
    else Execute(env, read, dataDir, q)
  }

  /** `n` is the number of rows of `file`, or 0 when it fails to load. */
  predicate RowCount(read: string -> Result<JValue>, dataDir: string, file: string, n: int)
  {
    match read(SourcePath(dataDir, file))
    case Ok(v) => n == |Rows(v)|
    case Err(_) => n == 0
  }

  /** `GetLibraryStats`: the row counts of the three files (0 for a file
      that fails to load); its own `Count` is left at 0. */
  function GetLibraryStats(env: Env, read: string -> Result<JValue>, dataDir: string): (r: QueryResult)
    ensures r.count == 0 && r.error == "" && r.data.LibraryCounts?
    ensures RowCount(read, dataDir, "saved_tracks.json", r.data.savedTracks)
    ensures RowCount(read, dataDir, "playlists.json", r.data.playlists)
    ensures RowCount(read, dataDir, "followed_artists.json", r.data.followedArtists)
  {
    var tracks := Execute(env, read, dataDir, Plain("saved_tracks.json", "count"));
    var playlists := Execute(env, read, dataDir, Plain("playlists.json", "count"));
    var artists := Execute(env, read, dataDir, Plain("followed_artists.json", "count"));
    QueryResult(0, LibraryCounts(tracks.count, playlists.count, artists.count), "")
  }

  const DataFiles: seq<string> := ["saved_tracks.json", "playlists.json", "followed_artists.json"]

  /** A search hit tagged with the file it came from. */
  function Tagged(file: string, item: JValue): JValue
  {
    JObj([Member("source", JStr(file)), Member("item", item)])
  }

  /** The hits of one file, each tagged with it. */
  function TagHits(file: string, hits: seq<JValue>): (r: seq<JValue>)
    ensures |r| == |hits| && forall i :: 0 <= i < |hits| ==> r[i] == Tagged(file, hits[i])
  {
    seq(|hits|, i requires 0 <= i < |hits| => Tagged(file, hits[i]))
  }

  /** `v` is a hit tagged with one of `files`. */
  predicate TaggedFrom(v: JValue, files: seq<string>)
  {
    v.JObj? && exists f :: f in files && Lookup(v.fields, "source") == Some(JStr(f))
  }

  /** The hits of the first file are tagged with it. */
  lemma TagsFirst(files: seq<string>, tagged: seq<JValue>, hits: seq<JValue>)
    requires |files| > 0 && |tagged| == |hits|
    requires forall i :: 0 <= i < |hits| ==> tagged[i] == Tagged(files[0], hits[i])
    ensures forall i :: 0 <= i < |tagged| ==> TaggedFrom(tagged[i], files)
  {
    forall i | 0 <= i < |tagged|
      ensures TaggedFrom(tagged[i], files)
    {
      assert Lookup(tagged[i].fields, "source") == Some(JStr(files[0]));
    }
  }

  /** A hit tagged with a later file is tagged with one of all the files. */
  lemma TagsRest(files: seq<string>, rest: seq<JValue>)
    requires |files| > 0
    requires forall i :: 0 <= i < |rest| ==> TaggedFrom(rest[i], files[1..])
    ensures forall i :: 0 <= i < |rest| ==> TaggedFrom(rest[i], files)
  {
    forall i | 0 <= i < |rest|
      ensures TaggedFrom(rest[i], files)
    {
      assert TaggedFrom(rest[i], files[1..]);
      var f :| f in files[1..] && Lookup(rest[i].fields, "source") == Some(JStr(f));
      assert f in files;
    }
  }

  /** The rows of one file that a search finds; none when the file fails
      to load or the term is empty. */
  function FileHits(env: Env, read: string -> Result<JValue>, dataDir: string, file: string,
                    term: string, limit: int): (r: seq<JValue>)
    ensures term == "" || read(SourcePath(dataDir, file)).Err? ==> r == []
    ensures limit > 0 ==> |r| <= limit
  {
    var res := Execute(env, read, dataDir, Plain(file, "search").(searchTerm := term, limit := limit));
    if res.data.Items? then res.data.items else []
  }

  /** When the file loads and the term is not empty, its hits are the
      first `limit` rows whose JSON text contains the term. */
  lemma FileHitsMatch(env: Env, read: string -> Result<JValue>, dataDir: string, file: string,
                      term: string, limit: int)
    requires term != "" && read(SourcePath(dataDir, file)).Ok?
    ensures Seqs.LimitedTo(FileHits(env, read, dataDir, file, term, limit),
      MatchingRows(env, Loaded(read, dataDir, file), term, ""), limit)
  {
    var q := Plain(file, "search").(searchTerm := term, limit := limit);
    RunsSearch(env, ApplyFilters(env, Loaded(read, dataDir, q.source), q.filters), q);
  }

  /** The tagged hits of the searches of `files`, in file order. */
  function SearchFiles(env: Env, read: string -> Result<JValue>, dataDir: string, files: seq<string>,
                       term: string, limit: int): (r: seq<JValue>)
    ensures forall i :: 0 <= i < |r| ==> TaggedFrom(r[i], files)
    ensures term == "" ==> r == []
  {
    if |files| == 0 then []
    else
      var hits := FileHits(env, read, dataDir, files[0], term, limit);
      var tagged := TagHits(files[0], hits);
      var rest := SearchFiles(env, read, dataDir, files[1..], term, limit);
      TagsFirst(files, tagged, hits);
      TagsRest(files, rest);
      tagged + rest
  }

  /** The tagged hits of the three data files, in file order. */
  function AllHits(env: Env, read: string -> Result<JValue>, dataDir: string, term: string, limit: int): (r: seq<JValue>)
  {
    TagHits("saved_tracks.json", FileHits(env, read, dataDir, "saved_tracks.json", term, limit))
    + TagHits("playlists.json", FileHits(env, read, dataDir, "playlists.json", term, limit))
    + TagHits("followed_artists.json", FileHits(env, read, dataDir, "followed_artists.json", term, limit))
  }

  /** `SearchAllData`: search every data file, tag each hit with its file,
      and cut the combined list to `limit`; it never reports an error. */
  function SearchAllData(env: Env, read: string -> Result<JValue>, dataDir: string, term: string, limit: int): (r: QueryResult)
    ensures r.error == "" && r.data.Items? && r.count == |r.data.items|
    ensures Seqs.LimitedTo(r.data.items, AllHits(env, read, dataDir, term, limit), limit)
    ensures forall i :: 0 <= i < |r.data.items| ==> TaggedFrom(r.data.items[i], DataFiles)
    ensures term == "" ==> r.count == 0
  {
    SearchesDataFiles(env, read, dataDir, term, limit);
    var all := SearchFiles(env, read, dataDir, DataFiles, term, limit);
    var results := Seqs.ApplyLimit(all, limit);
    Seqs.ApplyLimitLimited(all, limit);
    QueryResult(|results|, Items(results), "")
  }

  /** Searching the data files one after the other gives their hits in
      file order. */
  lemma SearchesDataFiles(env: Env, read: string -> Result<JValue>, dataDir: string, term: string, limit: int)
    ensures SearchFiles(env, read, dataDir, DataFiles, term, limit) == AllHits(env, read, dataDir, term, limit)
  {
    SearchThreeFiles(env, read, dataDir, DataFiles, term, limit);
  }

  /** Searching three files gives the hits of each in turn. */
  lemma SearchThreeFiles(env: Env, read: string -> Result<JValue>, dataDir: string, files: seq<string>,
                         term: string, limit: int)
    requires |files| == 3
    ensures SearchFiles(env, read, dataDir, files, term, limit)
      == TagHits(files[0], FileHits(env, read, dataDir, files[0], term, limit))
         + TagHits(files[1], FileHits(env, read, dataDir, files[1], term, limit))
         + TagHits(files[2], FileHits(env, read, dataDir, files[2], term, limit))
  {
    var f1 := files[1..];
    var f2 := f1[1..];
    assert f1[0] == files[1] && f2[0] == files[2] && f2[1..] == [];
    SearchFilesStep(env, read, dataDir, files, term, limit);
    SearchFilesStep(env, read, dataDir, f1, term, limit);
    SearchFilesStep(env, read, dataDir, f2, term, limit);
    SearchFilesEmpty(env, read, dataDir, f2[1..], term, limit);
  }

  /** Searching no files finds nothing. */
  lemma SearchFilesEmpty(env: Env, read: string -> Result<JValue>, dataDir: string, files: seq<string>,
                         term: string, limit: int)
    requires files == []
    ensures SearchFiles(env, read, dataDir, files, term, limit) == []
  {
  }

  /** Searching a list of files is searching the first, then the rest. */
  lemma SearchFilesStep(env: Env, read: string -> Result<JValue>, dataDir: string, files: seq<string>,
                        term: string, limit: int)
    requires |files| > 0
    ensures SearchFiles(env, read, dataDir, files, term, limit)
      == TagHits(files[0], FileHits(env, read, dataDir, files[0], term, limit))
         + SearchFiles(env, read, dataDir, files[1..], term, limit)
  {
  }
}
