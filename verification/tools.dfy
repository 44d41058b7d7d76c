/** The chat assistant's function-calling tools: their declared schemas,
    argument validation and dispatch onto the music queries. The text a tool
    returns is the indented JSON of the query result, taken as given by the
    `output` field of the context. */
module Tools {
  import opened Wrappers
  import opened Json
  import opened QueryValues
  import opened QueryOps
  import opened QueryEngine

  /** What the tools run against: the query engine's library behaviour, its
      file reader and data directory, and `json.MarshalIndent` of a result. */
  datatype Context = Context(
    env: Env,
    read: string -> Result<JValue>,
    dataDir: string,
    output: QueryResult -> string)

  /** A declared parameter and its JSON-schema type. */
  datatype Property = Property(name: string, kind: string)

  /** A tool definition: `Type`, the function name, and the parameters
      object `{type, properties, required}` (descriptions left out). */
  datatype ToolDef = ToolDef(
    kind: string,
    name: string,
    paramsType: string,
    properties: seq<Property>,
    required: seq<string>)

  function Def(name: string, properties: seq<Property>, required: seq<string>): ToolDef
  {
    ToolDef("function", name, "object", properties, required)
  }

  const ToolNames: seq<string> := [
    "get_library_stats", "search_tracks", "get_tracks_by_artist", "get_recently_added_tracks",
    "get_all_artists", "get_playlist_by_name", "query_music_data"]

  const LibraryStatsDef := Def("get_library_stats", [], [])
  const SearchTracksDef :=
    Def("search_tracks", [Property("query", "string"), Property("limit", "integer")], ["query"])
  const TracksByArtistDef := Def("get_tracks_by_artist", [Property("artist_name", "string")], ["artist_name"])
  const RecentlyAddedDef := Def("get_recently_added_tracks", [Property("limit", "integer")], [])
  const AllArtistsDef := Def("get_all_artists", [], [])
  const PlaylistByNameDef := Def("get_playlist_by_name", [Property("playlist_name", "string")], ["playlist_name"])
  const QueryMusicDataDef :=
    Def("query_music_data",
      [ Property("source", "string"), Property("operation", "string"), Property("filters", "array"),
        Property("sort_by", "string"), Property("sort_order", "string"), Property("limit", "integer"),
        Property("field", "string")],
      ["source", "operation"])

  /** `GetToolDefinitions`. */
  function ToolDefinitions(): (r: seq<ToolDef>)
    ensures |r| == |ToolNames|
    ensures forall i :: 0 <= i < |r| ==> r[i].name == ToolNames[i]
    ensures forall i :: 0 <= i < |r| ==> r[i].kind == "function" && r[i].paramsType == "object"
  {
    [ LibraryStatsDef, SearchTracksDef, TracksByArtistDef, RecentlyAddedDef,
      AllArtistsDef, PlaylistByNameDef, QueryMusicDataDef ]
  }

  /** `args[key].(string)`. */
  function StringArg(args: seq<Member>, key: string): (r: Option<string>)
    ensures r.Some? <==> Lookup(args, key).Some? && Lookup(args, key).value.JStr?
    ensures r.Some? ==> Lookup(args, key) == Some(JStr(r.value))
  {
    match Lookup(args, key)
    case Some(JStr(s)) => Some(s)
    case _ => None
  }

  /** `args[key].(float64)`. */
  function NumberArg(args: seq<Member>, key: string): (r: Option<real>)
    ensures r.Some? <==> Lookup(args, key).Some? && Lookup(args, key).value.JNum?
  {
    match Lookup(args, key)
    case Some(JNum(n)) => Some(n)
    case _ => None
  }

  /** `int(x)` of a float64: truncation toward zero. */
  function TruncateToInt(x: real): (r: int)
    ensures x >= 0.0 ==> r as real <= x < r as real + 1.0
    ensures x < 0.0 ==> r as real - 1.0 < x <= r as real
  {
    if x >= 0.0 then x.Floor else -((-x).Floor)
  }

  /** An optional numeric `limit`, 10 when absent or not a number. */
  function LimitArg(args: seq<Member>): (r: int)
    ensures NumberArg(args, "limit").None? ==> r == 10
    ensures NumberArg(args, "limit").Some? ==> r == TruncateToInt(NumberArg(args, "limit").value)
  {
    match NumberArg(args, "limit")
    case Some(l) => TruncateToInt(l)
    case None => 10
  }

  /** A query result as tool output: its error becomes the tool's error. */
  function Respond(ctx: Context, result: QueryResult): (r: Result<string>)
    ensures r.Err? <==> result.error != ""
    ensures r.Err? ==> r.error == "query error: " + result.error
    ensures r.Ok? ==> r.value == ctx.output(result)
  {
    if result.error != "" then Err("query error: " + result.error) else Ok(ctx.output(result))
  }

  /** A filter from an object entry of "filters": string field and operator
      when present, the value (nil when absent). */
  function FilterOf(m: seq<Member>): (r: Filter)
    ensures r.field == StringArg(m, "field").GetOr("")
    ensures r.operator == StringArg(m, "operator").GetOr("")
    ensures Lookup(m, "value").Some? ==> r.value == Lookup(m, "value").value
    ensures Lookup(m, "value").None? ==> r.value == JNull
  {
    Filter(StringArg(m, "field").GetOr(""), StringArg(m, "operator").GetOr(""), Lookup(m, "value").GetOr(JNull))
  }

  /** The filters of the object entries, in order; other entries are skipped. */
  function FiltersOf(entries: seq<JValue>): (r: seq<Filter>)
    ensures |r| == |Objects(entries)|
    ensures forall i :: 0 <= i < |r| ==> r[i] == FilterOf(Objects(entries)[i])
  {
    var objs := Objects(entries);
    seq(|objs|, i requires 0 <= i < |objs| => FilterOf(objs[i]))
  }

  /** `q` holds the arguments: the source and operation strings, the
      optional strings or "", a numeric limit truncated (0 when absent), and
      the filters of the "filters" list. */
  predicate Carries(args: seq<Member>, q: Query)
  {
    StringArg(args, "source") == Some(q.source)
    && StringArg(args, "operation") == Some(q.operation)
    && q.field == StringArg(args, "field").GetOr("")
    && q.sortBy == StringArg(args, "sort_by").GetOr("")
    && q.sortOrder == StringArg(args, "sort_order").GetOr("")
    && (NumberArg(args, "limit").None? ==> q.limit == 0)
    && (NumberArg(args, "limit").Some? ==> q.limit == TruncateToInt(NumberArg(args, "limit").value))
    && q.offset == 0 && q.searchTerm == "" && q.aggFunc == "" && q.groupBy == ""
    && (GetArray(args, "filters").None? ==> q.filters == [])
    && (GetArray(args, "filters").Some? ==> q.filters == FiltersOf(GetArray(args, "filters").value))
  }

  /** The query of `query_music_data`: "source" and then "operation" must be
      strings; the optional fields are copied only when well-typed. */
  function BuildQuery(args: seq<Member>): (r: Result<Query>)
    ensures Needed(args, "source").Err? ==> r == Err(Needed(args, "source").error)
    ensures Needed(args, "source").Ok? && Needed(args, "operation").Err? ==>
      r == Err(Needed(args, "operation").error)
    ensures r.Ok? <==> Needed(args, "source").Ok? && Needed(args, "operation").Ok?
    ensures r.Ok? ==> Carries(args, r.value)
  {
    match Needed(args, "source")
    case Err(e) => Err(e)
    case Ok(source) =>
      match Needed(args, "operation")
      case Err(e) => Err(e)
      case Ok(operation) =>
        var limit := match NumberArg(args, "limit") case Some(l) => TruncateToInt(l) case None => 0;
        var filters := match GetArray(args, "filters") case Some(fs) => FiltersOf(fs) case None => [];
        Ok(Query(source, operation, StringArg(args, "field").GetOr(""), filters,
          StringArg(args, "sort_by").GetOr(""), StringArg(args, "sort_order").GetOr(""),
          limit, 0, "", "", ""))
  }

  /** The result of a query that ran: the output text, or its error. */
  predicate Answered(r: Result<string>)
  {
    r.Ok? || (|r.error| >= 13 && r.error[..13] == "query error: ")
  }

  /** A string parameter the tool cannot run without. */
  function Needed(args: seq<Member>, key: string): (r: Result<string>)
    ensures r.Ok? <==> StringArg(args, key).Some?
    ensures r.Ok? ==> Lookup(args, key) == Some(JStr(r.value))
    ensures r.Err? ==> r.error == key + " parameter required"
  {
    match StringArg(args, key)
    case Some(s) => Ok(s)
    case None => Err(key + " parameter required")
  }

  /** `executeGetLibraryStats`. */
  function LibraryStatsTool(ctx: Context): (r: Result<string>)
    ensures r.Ok?
  {
    Respond(ctx, GetLibraryStats(ctx.env, ctx.read, ctx.dataDir))
  }

  /** `executeSearchTracks`: "query" required, "limit" defaulting to 10. */
  function SearchTracksTool(ctx: Context, args: seq<Member>): (r: Result<string>)
    ensures Needed(args, "query").Err? ==> r == Err(Needed(args, "query").error)
    ensures Needed(args, "query").Ok? ==> r.Ok?
  {
    match Needed(args, "query")
    case Err(e) => Err(e)
    case Ok(query) => Respond(ctx, SearchAllData(ctx.env, ctx.read, ctx.dataDir, query, LimitArg(args)))
  }

  /** `executeGetTracksByArtist`: "artist_name" required. */
  function TracksByArtistTool(ctx: Context, args: seq<Member>): (r: Result<string>)
    ensures Needed(args, "artist_name").Err? ==> r == Err(Needed(args, "artist_name").error)
    ensures Needed(args, "artist_name").Ok? ==>
      Answered(r)
  {
    match Needed(args, "artist_name")
    case Err(e) => Err(e)
    case Ok(artist) => Respond(ctx, GetTracksByArtist(ctx.env, ctx.read, ctx.dataDir, artist))
  }

  /** `executeGetRecentlyAddedTracks`: "limit" defaulting to 10. */
  function RecentlyAddedTool(ctx: Context, args: seq<Member>): (r: Result<string>)
    ensures Answered(r)
    ensures r.Err? <==> ctx.read(SourcePath(ctx.dataDir, "saved_tracks.json")).Err?
  {
    Respond(ctx, GetRecentlyAddedTracks(ctx.env, ctx.read, ctx.dataDir, LimitArg(args)))
  }

  /** `executeGetAllArtists`. */
  function AllArtistsTool(ctx: Context): (r: Result<string>)
    ensures Answered(r)
    ensures r.Err? <==> ctx.read(SourcePath(ctx.dataDir, "saved_tracks.json")).Err?
  {
    Respond(ctx, GetAllArtists(ctx.env, ctx.read, ctx.dataDir))
  }

  /** `executeGetPlaylistByName`: "playlist_name" required. */
  function PlaylistByNameTool(ctx: Context, args: seq<Member>): (r: Result<string>)
    ensures Needed(args, "playlist_name").Err? ==> r == Err(Needed(args, "playlist_name").error)
    ensures Needed(args, "playlist_name").Ok? ==>
      Answered(r)
  {
    match Needed(args, "playlist_name")
    case Err(e) => Err(e)
    case Ok(playlist) => Respond(ctx, GetPlaylistByName(ctx.env, ctx.read, ctx.dataDir, playlist))
  }

  /** `executeQueryMusicData`: the query built from the arguments, run by
      the engine. */
  function QueryMusicDataTool(ctx: Context, args: seq<Member>): (r: Result<string>)
    ensures Needed(args, "source").Err? ==> r == Err(Needed(args, "source").error)
    ensures Needed(args, "source").Ok? && Needed(args, "operation").Err? ==> r == Err(Needed(args, "operation").error)
    ensures Needed(args, "source").Ok? && Needed(args, "operation").Ok? ==> Answered(r)
  {
    match BuildQuery(args)
    case Err(e) => Err(e)
    case Ok(q) => Respond(ctx, Execute(ctx.env, ctx.read, ctx.dataDir, q))
  }

  /** The seven tools. */
  datatype Tool =
    | LibraryStats | SearchTracks | TracksByArtist | RecentlyAdded
    | AllArtists | PlaylistByName | QueryMusicData

  /** The tool a function name calls, if any. */
  function ToolNamed(name: string): (r: Option<Tool>)
    ensures r.None? <==> name !in ToolNames
  {
    match name
    case "get_library_stats" => Some(LibraryStats)
    case "search_tracks" => Some(SearchTracks)
    case "get_tracks_by_artist" => Some(TracksByArtist)
    case "get_recently_added_tracks" => Some(RecentlyAdded)
    case "get_all_artists" => Some(AllArtists)
    case "get_playlist_by_name" => Some(PlaylistByName)
    case "query_music_data" => Some(QueryMusicData)
    case _ => None
  }

  /** The executor of each tool; the postcondition names the query tool's
      case so that reasoning about it need not unfold the other six. */
  function Dispatch(ctx: Context, t: Tool, args: seq<Member>): (r: Result<string>)
    ensures t == QueryMusicData ==> r == QueryMusicDataTool(ctx, args)
  {
    match t
    case LibraryStats => LibraryStatsTool(ctx)
    case SearchTracks => SearchTracksTool(ctx, args)
    case TracksByArtist => TracksByArtistTool(ctx, args)
    case RecentlyAdded => RecentlyAddedTool(ctx, args)
    case AllArtists => AllArtistsTool(ctx)
    case PlaylistByName => PlaylistByNameTool(ctx, args)
    case QueryMusicData => QueryMusicDataTool(ctx, args)
  }

  /** The tool executors after argument decoding, by name. */
  function RunTool(ctx: Context, name: string, args: seq<Member>): (r: Result<string>)
    ensures name !in ToolNames ==> r == Err("unknown tool: " + name)
  {
    match ToolNamed(name)
    case Some(t) => Dispatch(ctx, t, args)
    case None => Err("unknown tool: " + name)
  }

  /** `ExecuteToolCall`: decode the argument text into an object (JSON null
      gives no arguments; `decode` is `json.Unmarshal` into a map), then run
      the named tool. */
  function ExecuteToolCall(ctx: Context, decode: string -> Result<seq<Member>>, name: string, arguments: string): (r: Result<string>)
    ensures decode(arguments).Err? ==> r == Err("failed to parse arguments: " + decode(arguments).error)
    ensures decode(arguments).Ok? && name !in ToolNames ==> r == Err("unknown tool: " + name)
    ensures decode(arguments).Ok? ==> r == RunTool(ctx, name, decode(arguments).value)
  {
    match decode(arguments)
    case Err(e) => Err("failed to parse arguments: " + e)
    case Ok(args) => RunTool(ctx, name, args)
  }

  /** A query's own failure never reads as a missing-parameter error of a
      parameter whose name does not start with 'q'. */
  lemma AnsweredNotMissing(r: Result<string>, p: string)
    requires Answered(r) && |p| > 0 && p[0] != 'q'
    ensures r != Err(p + " parameter required")
  {
    if r.Err? {
      assert r.error[0] == r.error[..13][0] == 'q';
      assert (p + " parameter required")[0] == p[0];
    }
  }

  /** The parameter `j` of `d` is absent and every other required parameter
      of `d` is a string. */
  predicate OnlyMissing(d: ToolDef, j: nat, args: seq<Member>)
    requires j < |d.properties|
  {
    Lookup(args, d.properties[j].name).None?
    && forall k :: 0 <= k < |d.required| ==>
      d.required[k] == d.properties[j].name || StringArg(args, d.required[k]).Some?
  }

  /** The tool fails for want of parameter `j` exactly when it is required. */
  predicate RequiredAgrees(ctx: Context, d: ToolDef, j: nat, args: seq<Member>)
    requires j < |d.properties|
  {
    d.properties[j].name in d.required
    <==> RunTool(ctx, d.name, args) == Err(d.properties[j].name + " parameter required")
  }

  lemma RequiredSearchTracks(ctx: Context, j: nat, args: seq<Member>)
    requires j < |SearchTracksDef.properties| && OnlyMissing(SearchTracksDef, j, args)
    ensures RequiredAgrees(ctx, SearchTracksDef, j, args)
  {
    RunsTool(ctx, "search_tracks", SearchTracks, args);
    if j == 1 {
      assert SearchTracksDef.required[0] == "query";
      AnsweredNotMissing(SearchTracksTool(ctx, args), "limit");
    }
  }

  lemma RequiredRecentlyAdded(ctx: Context, j: nat, args: seq<Member>)
    requires j < |RecentlyAddedDef.properties| && OnlyMissing(RecentlyAddedDef, j, args)
    ensures RequiredAgrees(ctx, RecentlyAddedDef, j, args)
  {
    RunsTool(ctx, "get_recently_added_tracks", RecentlyAdded, args);
    AnsweredNotMissing(RecentlyAddedTool(ctx, args), "limit");
  }

  lemma RequiredQueryMusicData(ctx: Context, j: nat, args: seq<Member>)
    requires j < |QueryMusicDataDef.properties| && OnlyMissing(QueryMusicDataDef, j, args)
    ensures RequiredAgrees(ctx, QueryMusicDataDef, j, args)
  {
    RunsQueryMusicData(ctx, args);
    if j < 2 {
      RequiredQueryArgument(ctx, j, args);
    } else {
      OptionalQueryArgument(ctx, j, args);
    }
  }

  lemma RunsQueryMusicData(ctx: Context, args: seq<Member>)
    ensures RunTool(ctx, QueryMusicDataDef.name, args) == QueryMusicDataTool(ctx, args)
  {
    NamesQueryMusicData();
    RunsNamedTool(ctx, QueryMusicDataDef.name, args);
  }

  /** Running a tool by its name runs that tool. */
  lemma RunsTool(ctx: Context, name: string, t: Tool, args: seq<Member>)
    requires ToolNamed(name) == Some(t)
    ensures RunTool(ctx, name, args) == Dispatch(ctx, t, args)
  {
    RunsNamedTool(ctx, name, args);
  }

  lemma RunsNamedTool(ctx: Context, name: string, args: seq<Member>)
    requires ToolNamed(name).Some?
    ensures RunTool(ctx, name, args) == Dispatch(ctx, ToolNamed(name).value, args)
  {
  }

  lemma NamesQueryMusicData()
    ensures ToolNamed(QueryMusicDataDef.name) == Some(QueryMusicData)
  {
    assert QueryMusicDataDef.name == "query_music_data";
  }

  lemma RequiredQueryArgument(ctx: Context, j: nat, args: seq<Member>)
    requires j < 2 && OnlyMissing(QueryMusicDataDef, j, args)
    ensures QueryMusicDataDef.properties[j].name in QueryMusicDataDef.required
    ensures QueryMusicDataTool(ctx, args) == Err(QueryMusicDataDef.properties[j].name + " parameter required")
  {
    var d := QueryMusicDataDef;
    if j == 0 {
      assert d.properties[j].name == "source";
    } else {
      assert d.properties[j].name == "operation";
      assert StringArg(args, "source").Some? by {
        assert d.required[0] == "source";
      }
    }
  }

  lemma OptionalQueryArgument(ctx: Context, j: nat, args: seq<Member>)
    requires 2 <= j < |QueryMusicDataDef.properties| && OnlyMissing(QueryMusicDataDef, j, args)
    ensures QueryMusicDataDef.properties[j].name !in QueryMusicDataDef.required
    ensures QueryMusicDataTool(ctx, args) != Err(QueryMusicDataDef.properties[j].name + " parameter required")
  {
    var d := QueryMusicDataDef;
    var p := d.properties[j].name;
    assert p != "source" && p != "operation" && p[0] != 'q';
    assert StringArg(args, "source").Some? by {
      assert d.required[0] == "source";
    }
    assert StringArg(args, "operation").Some? by {
      assert d.required[1] == "operation";
    }
    AnsweredNotMissing(QueryMusicDataTool(ctx, args), p);
  }

  /** Each declared `required` list names exactly the parameters whose
      absence the executor rejects: with parameter `j` of a tool absent and
      every other required parameter a string, the tool fails with
      "<name> parameter required" if and only if that parameter is required. */
  lemma RequiredMatchesExecutor(ctx: Context, i: nat, j: nat, args: seq<Member>)
    requires i < |ToolDefinitions()| && j < |ToolDefinitions()[i].properties|
    requires OnlyMissing(ToolDefinitions()[i], j, args)
    ensures RequiredAgrees(ctx, ToolDefinitions()[i], j, args)
  {
    if i == 1 {
      RequiredSearchTracks(ctx, j, args);
    } else if i == 3 {
      RequiredRecentlyAdded(ctx, j, args);
    } else if i == 6 {
      RequiredQueryMusicData(ctx, j, args);
    }
  }
}
