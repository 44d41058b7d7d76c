# Spotigo core in Dafny

Spotigo is a command-line companion for a Spotify library. It backs up the
library to JSON files and answers questions about those files. It does this
through a small JSON query engine, a set of tools an Ollama chat model can
call, and an in-memory vector store for semantic search. This project models
the sequential data logic under Spotigo's I/O and terminal shell, and proves
properties of it:

- **Vector store** (`VectorStore`) and **document builders** (`Documents`).
  - Upserting documents by ID, one at a time and in batches.
  - Counting by type.
  - Ranking a search by cosine similarity.
  - Saving and loading the store.
- **JSON query engine**:
  - `QueryPath`: dot-path lookup.
  - `QueryValues`: the three-way comparator and the filter primitives.
  - `QueryOps`: filters, select, sort, sample, distinct, group, search, aggregate and stats.
  - `QueryEngine`: dispatch, loading and the music helper queries.
- **JSON field extractors** (`JsonUtil`) over the JSON value type (`Json`).
- **Tool calls** (`Tools`). The seven tool schemas, argument checking and dispatch.
- **Commands**:
  - `SearchCmd`: record loading and the type flag.
  - `StatsCmd`: library statistics.
  - `ChatCmd`: input validation, history trimming, command words and one chat turn.
  - `BackupCmd`: kind selection, collection, saving, playlist gathering and restore.
- **Backup storage** (`Storage`, `TimeLayout`). Backup file names, type parsing and directory listing.
- **Terminal menu** (`Menu`). The cursor and flag state machine.
- **Model roles** (`ModelRoles`). Lookup of a role's primary and fallback model.

## How the model stands in for the rest

- **JSON values and files.**
  - A JSON value is the datatype `Json.JValue`. An object is a list of members.
  - A lookup finds the last member with the key, which is how Go's decoder treats a duplicated key.
  - A file on disk is an input function from path to a decoded value or an error.
  - A directory listing is an input sequence of entries.
  - Writes are functions that say whether each path could be written.
- **Library behaviour.** The query engine receives a record `Env` of functions for what it cannot be written out here:
  - `fmt` `%v` rendering;
  - `time.Parse`;
  - `strings.ToLower`;
  - `regexp`;
  - JSON encoding of tool results.
- **Sorting.** `sort.Slice` is modelled by one insertion sort (`Sorting.Sort`). That is one admissible outcome of an unstable sort. Its results are proved sorted and to be a permutation.
- **Map iteration.** Go's map iteration order is an input sequence that enumerates the map's keys exactly once (`VectorStore.Enumerates`).
- **Concurrency.** Goroutines become an arrival order:
  - a permutation of the fetches started (`BackupCmd.CollectBackup`);
  - the order in which playlist workers fill their slots (`BackupCmd.FetchPlaylists`).
  - The batch add of the vector store is its sequential outcome.
- **Numbers.**
  - Floating-point values are exact reals.
  - The square root is a parameter, constrained by `VectorStore.IsSqrt`.
  - Go's `int(x)` truncation toward zero is written out (`Tools.TruncateToInt`).
  - Byte strings are `seq<byte>`, so that UTF-8 validity can be stated (`Utf8`).

## Model

| member | source | states |
|---|---|---|
| Json.Lookup | internal/jsonutil/jsonutil.go:21-26 | a key is found iff some member carries it, and the value found is one bound to that key |
| Json.LookupShadow | internal/jsonutil/jsonutil.go:21-26 | a later member with the same key shadows earlier ones and leaves other keys' lookups unchanged, as decoding a duplicated key into a Go map does |
| JsonUtil.GetString | internal/jsonutil/jsonutil.go:21-26 | the value under the key when it is a string, and "" in every other case |
| JsonUtil.GetNestedString | internal/jsonutil/jsonutil.go:30-43 | no keys give ""; one key behaves as GetString; a first key that is not an object gives "" |
| JsonUtil.NestedStep | internal/jsonutil/jsonutil.go:30-43 | following an object under the first key is the same as starting from that object with the remaining keys |
| QueryPath.NestedStringIsWalk | internal/jsonutil/jsonutil.go:30-43 | a non-empty nested string is exactly what the query engine's dot-path walk finds along the same keys |
| JsonUtil.StringsAreFilter | internal/jsonutil/jsonutil.go:47-58 | the strings taken from a list are exactly the string elements, in list order (the filter of the list) |
| JsonUtil.GetStringSlice | internal/jsonutil/jsonutil.go:47-58 | empty unless the key holds a list, otherwise that list's string elements |
| JsonUtil.NamesOf | internal/jsonutil/jsonutil.go:62-75 | exactly the "name" strings of the object elements that have a non-empty one, in element order; never an empty name |
| JsonUtil.GetArtistNames | internal/jsonutil/jsonutil.go:62-75 | empty without an "artists" list; otherwise exactly the non-empty "name" strings of its object elements, in list order |
| JsonUtil.TrackData | internal/jsonutil/jsonutil.go:79-103 | the nested "track" object when present, otherwise the record itself |
| JsonUtil.GetTrackArtists | internal/jsonutil/jsonutil.go:79-86 | the artist names of the object under "track" when that is an object, otherwise of the record itself; never an empty name |
| JsonUtil.GetTrackAlbum | internal/jsonutil/jsonutil.go:90-103 | a non-empty album is the "name" string of the "album" object of the track data |
| JsonUtil.TrackAlbumIsNested | internal/jsonutil/jsonutil.go:90-103 | the album equals the nested lookup of "album" then "name" in the track data |
| JsonUtil.GetArtistGenres | internal/jsonutil/jsonutil.go:106-116 | the string elements of the "genres" list, as GetStringSlice reads them; empty without a list |
| JsonUtil.GetPlaylistName | internal/jsonutil/jsonutil.go:119-124 | the "name" string, as GetString reads it: "" when missing or not a string |
| JsonUtil.GetPlaylistTrackCount | internal/jsonutil/jsonutil.go:127-132 | the length of the "tracks" list, or 0 when "tracks" is not a list |
| JsonUtil.GetPlaylistOwner | internal/jsonutil/jsonutil.go:135-140 | the "owner" string, as GetString reads it: "" when missing or not a string |
| JsonUtil.Truncate | internal/jsonutil/jsonutil.go:143-148 | unchanged iff it fits; otherwise exactly maxLen bytes, the first maxLen-3 of the input followed by "..."; maxLen >= 3 is required only when the input is too long |
| JsonUtil.TruncateText | internal/jsonutil/jsonutil.go:143-148 | the character-based truncation the doc comment describes: same shape as Truncate over characters, and its UTF-8 encoding is always valid |
| JsonUtil.Min | internal/jsonutil/jsonutil.go:151-156 | the result is one of the arguments and no larger than either |
| JsonUtil.DecodeRecords | internal/jsonutil/jsonutil.go:11-17 | a read error passes through; null decodes to no records; a list decodes iff every element is an object or null, one record per element |
| QueryPath.ParseIndexDecimal | internal/jsonquery/query.go:598-606 | any decimal numeral within the int64 range parses back to its value |
| QueryPath.NoDigitsNoIndex | internal/jsonquery/query.go:598-619 | a segment without digits is never taken as an array index |
| QueryPath.GetFieldValue | internal/jsonquery/query.go:582-590 | an empty path returns the value itself |
| QueryPath.PlainKey | internal/jsonquery/query.go:582-627 | a single dot-free key reads the object's member, or nil when it is missing |
| QueryPath.ScalarYieldsNull | internal/jsonquery/query.go:621-622 | descending into a scalar yields nil |
| QueryPath.MissingKeyYieldsNull | internal/jsonquery/query.go:592-597 | a missing key yields nil whatever the rest of the path |
| QueryPath.IndexOutOfRangeYieldsNull | internal/jsonquery/query.go:598-606 | a numeric segment outside the array, negative or too large, yields nil |
| QueryPath.Gather | internal/jsonquery/query.go:608-619 | gathering never yields nil and never more values than elements |
| QueryPath.GatherNonNil | internal/jsonquery/query.go:608-619 | the gathered values are exactly the non-nil results of the segment on each element, in element order |
| QueryPath.KeySegmentGathers | internal/jsonquery/query.go:608-619 | a last key segment on an array yields the array of gathered values when there are any |
| QueryPath.WalkAppend | internal/jsonquery/query.go:582-627 | walking p then q is walking q from where p led |
| QueryPath.DottedPathComposes | internal/jsonquery/query.go:582-627 | looking up "a.b" is looking up b in the result of looking up a |
| QueryValues.CompareValues | internal/jsonquery/query.go:630-672 | the result is -1, 0 or 1; nil is smallest and two nils are equal; numbers compare by value |
| QueryValues.CompareAntisymmetric | internal/jsonquery/query.go:630-672 | swapping the arguments negates the result |
| QueryValues.CompareReflexive | internal/jsonquery/query.go:630-672 | every value compares equal to itself |
| QueryValues.CompareTransitive | internal/jsonquery/query.go:630-672 | among numbers, among times, or among texts (with nil), "less than" is transitive |
| QueryValues.ToNumber | internal/jsonquery/query.go:674-692 | a value converts iff it is a number |
| QueryValues.ToTime | internal/jsonquery/query.go:694-710 | only a string converts, and it converts exactly when the layout parser accepts it |
| QueryValues.ContainsValue | internal/jsonquery/query.go:712-716 | true iff the lower-cased rendering of the search occurs in the lower-cased rendering of the value |
| QueryValues.MatchesRegex | internal/jsonquery/query.go:718-726 | a match iff the pattern compiles and matches the value; a pattern that does not compile never matches |
| QueryValues.InValues | internal/jsonquery/query.go:728-740 | true iff the list is an array with an element comparing equal to the value |
| QueryOps.MatchesFilter | internal/jsonquery/query.go:191-220 | unknown operators never match; exists and not_exists test the field for nil |
| QueryOps.OperatorDuals | internal/jsonquery/query.go:191-220 | ne, lt, lte and not_exists are the negations of eq, gte, gt and exists; gt holds iff the field is above the value |
| QueryOps.ApplyFilters | internal/jsonquery/query.go:166-188 | no filters return the data; otherwise an order-preserving subsequence of the items matching every filter, keeping every copy of each |
| QueryOps.SelectOp | internal/jsonquery/query.go:223-255 | never an error and count is the length; without a field the items are the page of the (optionally sorted) rows: min(offset, n) skipped, limit kept only when 0 < limit < remaining |
| QueryOps.SelectOpExtracts | internal/jsonquery/query.go:242-251 | with a field the items are exactly the non-nil field values of the paged rows, in page order |
| QueryOps.Page | internal/jsonquery/query.go:229-240 | the page is the run of consecutive rows from min(offset, n) (from 0 for a non-positive offset), of length limit when 0 < limit < the rows left and all the rows left otherwise |
| QueryOps.SortData | internal/jsonquery/query.go:440-456 | the result is a permutation of the input |
| QueryOps.SortDataOrdered | internal/jsonquery/query.go:440-456 | when the keys are all numbers, times or texts the result is ordered by the comparator, descending iff the order is "desc" |
| QueryOps.SortOp | internal/jsonquery/query.go:425-438 | without sort_by the error message; otherwise the first limit items of the sorted data, all of them unless 0 < limit < n |
| QueryOps.SampleLoopTakes | internal/jsonquery/query.go:566-570 | the sampling loop takes exactly limit items, at indices 0, step, 2*step, ... |
| QueryOps.SampleOp | internal/jsonquery/query.go:555-577 | the default limit is 5; all the data when it fits; otherwise exactly limit items spaced n/limit apart |
| QueryOps.DistinctOp | internal/jsonquery/query.go:459-486 | without a field the error; otherwise the first limit distinct field values (all of them unless 0 < limit < their number), count their number |
| QueryOps.DistinctValuesFirst | internal/jsonquery/query.go:464-476 | the distinct values are a subsequence of the field values with pairwise different renderings, each the first of its rendering, and every rendering present |
| QueryOps.GroupCounts | internal/jsonquery/query.go:342-372 | one entry per distinct key with its number of occurrences, by non-increasing count, counts summing to n |
| QueryOps.GroupOp | internal/jsonquery/query.go:342-375 | count is the number of distinct keys; the groups are a prefix of the ranked counts, shorter only when 0 < limit < count |
| QueryOps.SearchOp | internal/jsonquery/query.go:378-417 | an empty term is the error; otherwise the first limit matching rows (all of them unless 0 < limit < their number), count their number |
| QueryOps.MatchingRowsFiltered | internal/jsonquery/query.go:383-416 | the matching rows are exactly the rows whose field (or whole JSON text) contains the lower-cased term, in row order, every copy kept |
| QueryOps.NumbersAreFilter | internal/jsonquery/query.go:286-295 | the numbers taken from the field values are the numeric values in order |
| QueryOps.SumConcat | internal/jsonquery/query.go:286-295 | the sum of a concatenation is the sum of the sums |
| QueryOps.MinValueLeast | internal/jsonquery/query.go:314-326 | nil iff every value is nil; otherwise one of the values, and no smaller than any non-nil value when the keys are uniform |
| QueryOps.MaxValueGreatest | internal/jsonquery/query.go:328-340 | nil iff every value is nil; otherwise one of the values, and no larger than any non-nil value when the keys are uniform |
| QueryOps.CountOp | internal/jsonquery/query.go:258-264 | the count is the number of items |
| QueryOps.AggregateOp | internal/jsonquery/query.go:267-340 | an unknown function is the error; sum is the sum of the numeric values; avg times the numeric count is the sum; min and max are the comparator's extremes; group delegates |
| QueryOps.StatsMaxOfNegatives | internal/jsonquery/query.go:514-516 | the maximum as written, starting from 0, reports 0 for [-5], a value not in the data |
| QueryOps.MaxOf | internal/jsonquery/query.go:514-516 | the corrected maximum is one of the values and no value exceeds it |
| QueryOps.MaxFromZeroAgrees | internal/jsonquery/query.go:514-516 | the two maxima agree whenever some value is non-negative |
| QueryOps.MaxFromZeroMember | internal/jsonquery/query.go:514-516 | the maximum as written is either one of the values or 0 |
| QueryOps.NumbersTextsPartition | internal/jsonquery/query.go:501-520 | every non-nil field value counts either as a number or as a text |
| QueryOps.MostCommonFacts | internal/jsonquery/query.go:534-541 | the most common text has the largest number of occurrences, and that number is positive |
| QueryOps.NumericStatsOf | internal/jsonquery/query.go:523-529 | present iff there are numbers; count, sum and avg times count agree; min and max are values bounding all the numbers |
| QueryOps.StringStatsOf | internal/jsonquery/query.go:531-544 | present iff there are texts; unique is the number of distinct texts; the most common count is that text's occurrences and no text occurs more |
| QueryOps.StatsOp | internal/jsonquery/query.go:489-552 | the total count is n; without a field no value statistics; with a field the numeric and text statistics of the field values |
| QueryEngine.SourcePath | internal/jsonquery/query.go:123-127 | a relative source without a drive colon is joined to the data directory; an absolute one is used as is |
| QueryEngine.Rows | internal/jsonquery/query.go:144-153 | a top-level array gives its elements; any other value is a single row |
| QueryEngine.Run | internal/jsonquery/query.go:81-114 | an error iff the query is rejected (a known operation missing its required argument, or an unknown aggregate function); an unknown operation gives "unknown operation: <op>"; count counts the rows |
| QueryEngine.Execute | internal/jsonquery/query.go:81-114 | a load failure gives "failed to load data: ..."; otherwise the operation runs on the filtered rows |
| QueryEngine.GetAllArtists | internal/jsonquery/query.go:754-761 | fails iff the tracks file cannot be loaded; otherwise the distinct values of "track.artists.name" over the tracks, which are per-track lists of names (see Findings) |
| QueryEngine.AllArtistsGivesLists | internal/jsonquery/query.go:754-761 | one saved track by a and b gives the single item [a, b], never the artists a and b |
| QueryEngine.GetAllArtistNames | internal/jsonquery/query.go:754 | the corrected helper: fails iff the tracks file cannot be loaded; otherwise distinct strings, a name present iff it is an artist of some saved track |
| QueryEngine.GetTracksByArtist | internal/jsonquery/query.go:764-771 | fails iff the tracks file cannot be loaded or the name is empty; otherwise exactly the tracks whose artist names contain the lower-cased name, in file order, every copy kept |
| QueryEngine.GetPlaylistByName | internal/jsonquery/query.go:774-781 | fails iff the playlists file cannot be loaded or the name is empty; otherwise exactly the playlists whose name contains the lower-cased text, in file order, every copy kept |
| QueryEngine.GetRecentlyAddedTracks | internal/jsonquery/query.go:784-792 | fails iff the tracks file cannot be loaded; otherwise the first limit tracks sorted by "added_at", newest first |
| QueryEngine.GetLibraryStats | internal/jsonquery/query.go:795-820 | never an error; each count is the number of rows of its file, 0 when it cannot be loaded |
| QueryEngine.SearchAllData | internal/jsonquery/query.go:823-855 | never an error; the first limit of the tagged hits of the tracks, playlists and artists files in that order; every item is tagged with a data file; an empty term finds nothing |
| QueryEngine.FileHits | internal/jsonquery/query.go:827-842 | none for an empty term or a file that fails to load; at most limit for a positive limit |
| QueryEngine.FileHitsMatch | internal/jsonquery/query.go:827-842 | when the file loads and the term is not empty, the hits are the first limit rows whose JSON text contains the term |
| QueryEngine.SearchesDataFiles | internal/jsonquery/query.go:825-845 | searching the three data files in a loop gives the tagged hits of each file in turn |
| Tools.ToolDefinitions | internal/tools/tools.go:25-181 | seven definitions in order, each of type "function" with "object" parameters |
| Tools.LimitArg | internal/tools/tools.go:229-232 | 10 without a numeric limit, otherwise its truncation toward zero |
| Tools.TruncateToInt | internal/tools/tools.go:229-232 | truncation toward zero: within one of the real, on the side of zero |
| Tools.Respond | internal/tools/tools.go:212-220 | an error result becomes "query error: <error>" and no output; otherwise the encoded result |
| Tools.Needed | internal/tools/tools.go:224-227 | present iff the argument is a string; otherwise "<name> parameter required" |
| Tools.FilterOf | internal/tools/tools.go:352-361 | field and operator are copied only when they are strings; value is copied as given, nil when absent |
| Tools.FiltersOf | internal/tools/tools.go:345-364 | one filter per object entry, in order; non-object entries are skipped |
| Tools.BuildQuery | internal/tools/tools.go:313-365 | source is checked before operation; the query is built iff both are strings, and it carries exactly the well-typed optional arguments |
| Tools.SearchTracksTool | internal/tools/tools.go:223-244 | a missing query is rejected; otherwise the search is answered |
| Tools.TracksByArtistTool | internal/tools/tools.go:246-262 | a missing artist_name is rejected; otherwise the query is answered |
| Tools.PlaylistByNameTool | internal/tools/tools.go:295-311 | a missing playlist_name is rejected; otherwise the query is answered |
| Tools.QueryMusicDataTool | internal/tools/tools.go:313-378 | a missing source, then a missing operation, is rejected; otherwise the query is answered |
| Tools.RunTool | internal/tools/tools.go:190-207 | any name outside the seven tools gives "unknown tool: <name>" |
| Tools.LibraryStatsTool | internal/tools/tools.go:210-221 | the library counts are always answered, never an error |
| Tools.RecentlyAddedTool | internal/tools/tools.go:264-280 | fails iff the tracks file cannot be loaded, and then with "query error: ..." |
| Tools.AllArtistsTool | internal/tools/tools.go:282-293 | fails iff the tracks file cannot be loaded, and then with "query error: ..." |
| Tools.ToolNamed | internal/tools/tools.go:190-207 | a name selects a tool exactly when it is one of the seven declared tool names |
| Tools.ExecuteToolCall | internal/tools/tools.go:184-208 | unparsable arguments give "failed to parse arguments: ..."; otherwise dispatch by name |
| Tools.RequiredMatchesExecutor | internal/tools/tools.go:25-181 | for every tool and every declared parameter, that parameter is in the required list iff its executor rejects a call missing only it |
| Tools.RequiredQueryArgument | internal/tools/tools.go:317-327 | a missing source or operation is required and rejected with its own message |
| Tools.OptionalQueryArgument | internal/tools/tools.go:329-365 | a missing optional parameter of query_music_data is not required and not rejected |
| VectorStore.NewStore | internal/rag/store.go:45-52 | a new store is empty and keeps its path |
| VectorStore.Add | internal/rag/store.go:55-73 | fails iff an embedding is needed and the client errs or returns none, with the source's messages; otherwise upserts by ID, leaves other IDs alone and grows the count only for a new ID |
| VectorStore.AddWellKeyed | internal/rag/store.go:55-73 | adding keeps every document stored under its own ID |
| VectorStore.Prepare | internal/rag/store.go:86-106 | a document changes only by its embedding; it fails iff an embedding is needed and cannot be had, and then it is stored without one |
| VectorStore.Upsert | internal/rag/store.go:175-191 | the keys grow by the batch's IDs; each ID maps to its last document in the batch; other IDs are unchanged |
| VectorStore.AddBatch | internal/rag/store.go:81-193 | the store after a batch upserts every prepared document in input order; no error iff every needed embedding succeeded |
| VectorStore.AddBatchIsAdds | internal/rag/store.go:76-78 | without a client the batch is the same as adding the documents one by one |
| VectorStore.AddAllUpserts | internal/rag/store.go:55-73 | adding one by one is the batch upsert |
| VectorStore.Clear | internal/rag/store.go:321-325 | clearing leaves no documents and keeps the path |
| VectorStore.CountByType | internal/rag/store.go:246-255 | one entry per type with its number of documents; the counts sum to Count |
| VectorStore.Cosine | internal/rag/store.go:328-345 | 0 for different lengths, an empty vector or a zero norm; otherwise the dot product over the product of the norms |
| VectorStore.CosineSymmetric | internal/rag/store.go:328-345 | similarity is symmetric |
| VectorStore.CosineSelf | internal/rag/store.go:328-345 | a non-zero vector has similarity 1 with itself |
| VectorStore.CosineNegated | internal/rag/store.go:328-345 | a non-zero vector has similarity -1 with its negation |
| VectorStore.Candidates | internal/rag/store.go:207-222 | every candidate carries its own similarity; the candidates are exactly the eligible documents: right type (or "" or "all") with an embedding |
| VectorStore.Ranked | internal/rag/store.go:226-228 | a permutation in non-increasing similarity order |
| VectorStore.LimitedRanking | internal/rag/store.go:226-235 | the limited ranking is ordered, drawn from the candidates, all of them when unlimited, and no left-out candidate beats a kept one |
| VectorStore.Search | internal/rag/store.go:196-236 | fails iff the query embedding fails; results are scored eligible documents by non-increasing similarity, min(limit, eligible) of them, no left-out one more similar |
| VectorStore.SearchFindsEligible | internal/rag/store.go:207-216 | an unlimited search returns exactly the eligible documents |
| VectorStore.Save | internal/rag/store.go:258-288 | fails iff there is no path, the directory cannot be created or the file cannot be written, with "no store path configured", "failed to create directory: ..." and "failed to write store: ..." in that order of precedence; otherwise writes the snapshot |
| VectorStore.Load | internal/rag/store.go:291-318 | fails without a path; a missing file leaves the store alone; read and decode errors have their messages; a saved file replaces the map with its documents, last of an ID winning |
| VectorStore.LoadSave | internal/rag/store.go:258-318 | loading what a successful save wrote reproduces the store, whatever the loading store held |
| VectorStore.SavedIds | internal/rag/store.go:273-277 | the snapshot carries exactly the store's IDs, in enumeration order |
| VectorStore.Snapshot | internal/rag/store.go:273-277 | the documents in enumeration order, one per key, exactly the stored ones |
| Documents.TrackToDocument | internal/rag/documents.go:36-61 | ID "track:"+ID, type track, content name, " by ", joined artists, then the album and genres parts only when non-empty; metadata keys exactly id, name, artists, album, genres |
| Documents.ArtistToDocument | internal/rag/documents.go:64-82 | ID "artist:"+ID, type artist, content name then genres only when non-empty; metadata keys exactly id, name, genres |
| Documents.PlaylistToDocument | internal/rag/documents.go:85-111 | ID "playlist:"+ID, type playlist, content "Playlist: " name, description when non-empty, at most ten track names; metadata keys exactly id, name, description, owner, track_count |
| Documents.TrackSample | internal/rag/documents.go:90-95 | at most the first ten names, all of them when there are at most ten |
| Documents.IdsRoundTrip | internal/rag/documents.go:50-100 | stripping the kind prefix from a document ID gives back the source ID |
| Documents.KindsNeverCollide | internal/rag/documents.go:50-100 | documents of different kinds never share an ID |
| Documents.ArtistContentIsName | internal/rag/documents.go:65-70 | an artist's content is its bare name iff its genres join to "", that is, it has no genres or one empty genre |
| Documents.TrackContentShape | internal/rag/documents.go:38-47 | a track's content starts with name " by " artists, and is only that without album and genres |
| Documents.PlaylistIgnoresLaterTracks | internal/rag/documents.go:90-95 | tracks after the tenth do not change a playlist's content |
| Documents.PlaylistContentShape | internal/rag/documents.go:86-96 | a playlist's content starts with "Playlist: " name, and is only that without description and tracks |
| Documents.TrackCountRoundTrip | internal/rag/documents.go:107 | track_count is the decimal numeral of the count, which reads back to it and differs for different counts |
| SearchCmd.DocType | internal/cmd/search.go:114-121 | "tracks", "artists" and "playlists" map to the singular type; anything else passes through |
| SearchCmd.DocTypeSelectsKinds | internal/cmd/search.go:114-121 | the mapping is idempotent and names the type each document builder sets |
| SearchCmd.TrackOf | internal/cmd/search.go:287-302 | id, name, album and artists are read from the nested track when present |
| SearchCmd.ArtistOf | internal/cmd/search.go:320-324 | id and name strings and the string genres |
| SearchCmd.PlaylistOf | internal/cmd/search.go:342-361 | id, name, description and owner strings; the count is the tracks list's length; the names are exactly the non-empty nested track names, in list order |
| SearchCmd.LoadTracks | internal/cmd/search.go:278-310 | fails iff the file fails to decode; otherwise the complete tracks, in input order |
| SearchCmd.LoadArtists | internal/cmd/search.go:312-332 | fails iff the file fails to decode; otherwise the complete artists, in input order |
| SearchCmd.LoadPlaylists | internal/cmd/search.go:334-369 | fails iff the file fails to decode; otherwise the complete playlists, in input order, names within the count |
| SearchCmd.LoadersKeepComplete | internal/cmd/search.go:278-369 | each loader keeps every copy of a record with non-empty id and name, and drops every other |
| SearchCmd.LoadBackupDocuments | internal/cmd/search.go:245-276 | all track documents, then artist, then playlist documents; a failed source contributes none |
| SearchCmd.BackupDocumentsSections | internal/cmd/search.go:245-276 | the track documents form the prefix and the playlist documents the suffix |
| StatsCmd.TopCounts | internal/cmd/stats.go:336-360 | one entry per distinct name with its occurrences, by non-increasing count, counts summing to the number of names |
| StatsCmd.TrackArtists | internal/cmd/stats.go:339-343 | each artist occurs as often as it appears across the tracks' artist lists |
| StatsCmd.ArtistGenres | internal/cmd/stats.go:369-374 | each genre occurs as often as it appears across the artists' genre lists |
| StatsCmd.AlbumSet | internal/cmd/stats.go:345-351 | exactly the non-empty album names of the tracks |
| StatsCmd.PlaylistStatOf | internal/cmd/stats.go:390-395 | name, owner and track count of a playlist record |
| StatsCmd.Gather | internal/cmd/stats.go:326-398 | totals, distinct artists, unique albums, top artists and genres and playlist rows, each from its file |
| StatsCmd.ComputeLibraryStats | internal/cmd/stats.go:326-406 | "no backup data found" iff there are neither tracks nor playlists |
| StatsCmd.ArtistsCounted | internal/cmd/stats.go:330-360 | an artist is ranked iff it appears on some track, with its number of appearances |
| StatsCmd.GenresCounted | internal/cmd/stats.go:365-382 | genre counts sum to the number of genre mentions and do not increase down the ranking |
| StatsCmd.ComputeTopAlbums | internal/cmd/stats.go:408-431 | a decode failure passes through; otherwise distinct non-empty albums with their counts, non-increasing |
| StatsCmd.TopAlbumsAreUniqueAlbums | internal/cmd/stats.go:408-431 | the ranked albums are exactly the unique albums of the library statistics |
| StatsCmd.BarLength | internal/cmd/stats.go:262-265 | count*30/max rounded down, at least 1; at most 30 for counts up to max, exactly 30 at max |
| StatsCmd.BarMonotone | internal/cmd/stats.go:262-265 | a larger count never gets a shorter bar |
| StatsCmd.MaxCount | internal/cmd/stats.go:249-254 | the largest count, 0 for no genres |
| StatsCmd.GenreBars | internal/cmd/stats.go:256-266 | one bar for each of the first top genres, each the bar length of its count against the largest count: 1 to 30 long, the most frequent at 30 |
| Utf8.EncodeRuneDecodes | internal/cmd/chat.go:406-408 | decoding the encoding of a character gives the character back |
| Utf8.DecodeEncode | internal/cmd/chat.go:406-408 | an encoded string is valid UTF-8 and decodes to itself |
| ChatCmd.ValidateChatInput | internal/cmd/chat.go:399-422 | accepted iff at most 4096 bytes, valid UTF-8 and free of NUL and control characters other than tab, LF and CR; the length and UTF-8 messages |
| ChatCmd.ControlError | internal/cmd/chat.go:411-421 | no error iff every character is allowed; otherwise the message for the first rejected position |
| ChatCmd.PlainTextAccepted | internal/cmd/chat.go:399-422 | text without control characters other than tab, LF and CR is accepted when short enough |
| ChatCmd.NulRejected | internal/cmd/chat.go:411-414 | a NUL after plain text is reported at its byte position |
| ChatCmd.NulAfter | internal/cmd/chat.go:406-414 | a NUL after any accepted input is reported at its byte position |
| ChatCmd.Classify | internal/cmd/chat.go:207-233 | on the trimmed, lower-cased line: empty skips; exit, quit, bye, q end; help, ? help; clear, reset clear; anything else is asked as trimmed |
| ChatCmd.ClassifyTrimmed | internal/cmd/chat.go:207-213 | classifying an already trimmed line gives the same command |
| ChatCmd.TrimHistory | internal/cmd/chat.go:241-245 | at most 50 messages are kept unchanged; beyond that the first message and the last 49, exactly 50 |
| ChatCmd.TrimKeepsAnswered | internal/cmd/chat.go:241-245 | trimming never separates a tool call from its results when the first message has no calls |
| ChatCmd.ToolResults | internal/cmd/chat.go:340-360 | one tool message per call, in order, holding the result or "Error executing tool: ..." |
| ChatCmd.ExchangeAsWritten | internal/cmd/chat.go:256-374 | the request loop as written makes between 1 and 5 requests per turn and keeps the history before the user message as a prefix |
| ChatCmd.RollbackDropsToolResult | internal/cmd/chat.go:318-322 | after one tool round and a double failure, the rollback as written removes the tool result, leaving the call unanswered |
| ChatCmd.ExchangeTurn | internal/cmd/chat.go:256-374 | the corrected loop makes 1 to 5 requests and either restores the history the turn started from or extends the history |
| ChatCmd.ExchangesAgree | internal/cmd/chat.go:256-374 | the rollback is the only difference: without a double failure the request loop as written equals the corrected one |
| ChatCmd.ExchangeKeepsAnswered | internal/cmd/chat.go:256-374 | with the corrected rollback every tool call in the history stays followed by its results |
| ChatCmd.StartSession | internal/cmd/chat.go:174-176 | a session starts with the system message alone |
| ChatCmd.HandleLine | internal/cmd/chat.go:207-374 | the session loop as written: quit ends the session; clear resets to the system message; skip, help and rejected input leave the history alone; a question keeps the trimmed history as a prefix |
| ChatCmd.HandleLineCorrected | internal/cmd/chat.go:207-374 | the session loop with the corrected rollback: the same outcomes for quit, clear, skip, help and rejected input; a question either restores the trimmed history or extends it with the user's message |
| ChatCmd.HandleLinesAgree | internal/cmd/chat.go:318-322 | when no request ends with both models failing, the loop as written and the corrected loop give the same session |
| ChatCmd.HandleLineKeepsAnswered | internal/cmd/chat.go:207-374 | with the corrected rollback (HandleLineCorrected) a line never leaves a tool call without its results |
| ChatCmd.ChatModel | internal/cmd/chat.go:102-115 | the flag when given, otherwise the configured chat model, otherwise the default; never empty |
| ChatCmd.FallbackModel | internal/cmd/chat.go:300-304 | the configured fallback, or the built-in one without a configuration |
| ModelRoles.GetRoleModel | internal/config/models.go:81-96 | succeeds iff the role is one of the five, returning that role's section; otherwise "unknown model role: <role>" |
| ModelRoles.GetModelForRole | internal/config/models.go:99-105 | the role's primary model, or the lookup error |
| ModelRoles.GetFallbackForRole | internal/config/models.go:108-114 | the role's fallback model, or the lookup error |
| ModelRoles.WithRole | internal/config/models.go:12-37 | replacing one role's section touches nothing outside the models section |
| ModelRoles.RolesIndependent | internal/config/models.go:81-114 | a lookup reads back what was put under its role, and other roles are unaffected |
| TimeLayout.Pad | internal/storage/store.go:93-96 | digits only, at least the width, exactly the width when the number fits |
| TimeLayout.PadValue | internal/storage/store.go:93-96 | the padded numeral reads back to the number |
| TimeLayout.Stamp | internal/storage/store.go:93-96 | a valid date and time is written in exactly 15 characters |
| TimeLayout.StampLayout | internal/storage/store.go:93-96 | the stamp contains no '.' and no '/', so it cannot break the file name's extension or path |
| TimeLayout.StampInjective | internal/storage/store.go:93-96 | different valid times get different stamps |
| Storage.BackupFileName | internal/storage/store.go:93-96 | the name starts with the type and a dash and ends in ".json" |
| Storage.PathJoin | internal/storage/store.go:193-195 | an empty directory gives the name; a directory and a non-empty name give directory, "/", name |
| Storage.GetBackupPath | internal/storage/store.go:193-195 | the backup directory, a slash, then the ID |
| Storage.CreateBackup | internal/storage/store.go:92-133 | succeeds iff the write succeeds; the ID is the file name, with the type, the time and the written size |
| Storage.LoadBackupJson | internal/storage/store.go:198-217 | fails iff the backup file is missing or not valid JSON; a missing file gives "failed to open backup file: ..."; a null document loads as null |
| Storage.LoadReadsOnlyBackupPath | internal/storage/store.go:198-217 | two file systems agreeing on the backup path give the same result |
| Storage.CreateThenLoad | internal/storage/store.go:92-217 | the ID a backup is created under leads back to its path: loading by that ID reads what that path holds |
| Storage.JsonExtension | internal/storage/store.go:150 | a name's extension is ".json" iff the name ends in ".json" |
| Storage.ParseType | internal/storage/store.go:159-170 | the type is a prefix of the name, and "" when there is no dash after the first character |
| Storage.TypeRoundTrip | internal/storage/store.go:159-170 | any non-empty type, dashes allowed, is parsed back out of its file name |
| Storage.EmptyTypeReadsDate | internal/storage/store.go:159-170 | an empty type does not round-trip: it parses as a dash and the date |
| Storage.NoDashNoType | internal/storage/store.go:159-170 | a name without a dash after index 0 has type "" |
| Storage.MetadataOf | internal/storage/store.go:172-177 | ID is the entry name, the type is parsed from it, time and size come from the file info |
| Storage.ListedExactly | internal/storage/store.go:146-178 | listed exactly the non-directory ".json" entries with readable info, by name |
| Storage.ListBackups | internal/storage/store.go:136-181 | a missing directory is an empty list; a read error is "failed to read backup directory: ..."; otherwise the listed entries |
| Storage.CreatedIsListed | internal/storage/store.go:92-181 | a created backup file appears in the listing with its own type |
| BackupCmd.SelectKinds | internal/cmd/backup.go:176-178 | each kind runs iff the type is "all" or that kind's name |
| BackupCmd.Launched | internal/cmd/backup.go:184-219 | the started fetches are exactly the selected kinds, each once |
| BackupCmd.KindSelection | internal/cmd/backup.go:176-178 | "all" starts three fetches, a kind name one, anything else none |
| BackupCmd.Collect | internal/cmd/backup.go:228-237 | one entry per result, data or error; no data iff all failed; no errors iff all succeeded |
| BackupCmd.CollectLookup | internal/cmd/backup.go:228-237 | the data under a name is the last successful result for it |
| BackupCmd.LastOkFetched | internal/cmd/backup.go:228-237 | in any arrival order the last successful result for a name is its fetch, when started and successful |
| BackupCmd.CollectBackup | internal/cmd/backup.go:172-247 | fails iff some fetch started and all failed, with "all backup operations failed: [...]"; otherwise the data holds exactly the successful fetches |
| BackupCmd.UnknownTypeSavesNothing | internal/cmd/backup.go:176-242 | an unknown type starts nothing and goes on with empty data |
| BackupCmd.SaveErrors | internal/cmd/backup.go:373-415 | no errors iff every data file write succeeds |
| BackupCmd.SaveBackupFiles | internal/cmd/backup.go:373-415 | succeeds iff every data file and the combined backup are written; otherwise "save errors: [...]" |
| BackupCmd.PerformBackup | internal/cmd/backup.go:172-256 | a collection failure passes through; otherwise succeeds iff saving succeeds, and a save failure is reported as "failed to save backup files: " followed by the save errors |
| BackupCmd.Workers | internal/cmd/backup.go:288-291 | min(5, number of playlists) |
| BackupCmd.SlotOf | internal/cmd/backup.go:299-317 | a failed playlist leaves the zero value; otherwise its id, name and tracks |
| BackupCmd.Place | internal/cmd/backup.go:334-347 | each arriving worker result lands in its own playlist's slot, whatever the arrival order |
| BackupCmd.Fetched | internal/cmd/backup.go:349-355 | the collected playlists all have names |
| BackupCmd.FetchedMember | internal/cmd/backup.go:335-355 | a playlist is collected iff it is listed, fetched and named |
| BackupCmd.SlotsFiltered | internal/cmd/backup.go:335-355 | filtering the slots for named ones gives the playlists in input order |
| BackupCmd.FetchPlaylists | internal/cmd/backup.go:259-362 | a listing failure is "failed to get playlists: ..."; otherwise the fetched named playlists in original order, whatever order the workers finish; an empty listing is an empty slice, and a non-empty listing is a nil slice iff nothing was collected |
| BackupCmd.PlaylistsJson | internal/cmd/backup.go:349-361 | a nil slice is written as null and only it; a slice as an array holding each playlist's JSON object in order |
| BackupCmd.PlaylistRowsLoaded | internal/cmd/backup.go:259-361 | a later query of the written playlists sees no rows for an empty listing, one nil row when every fetch failed, and the fetched playlists otherwise |
| BackupCmd.NewestFirst | internal/cmd/backup.go:548-551 | a permutation of the backups with timestamps never increasing |
| BackupCmd.RestoreTarget | internal/cmd/backup.go:555-558 | the first argument, or "latest" without one |
| BackupCmd.FirstWhereIsNewest | internal/cmd/backup.go:548-579 | the first match in newest-first order exists iff some backup matches, and no matching backup is newer |
| BackupCmd.SelectBackup | internal/cmd/backup.go:542-579 | no backups is the no-backups error; "latest" picks a newest backup; another target picks the newest backup whose ID equals or contains it, or "Backup not found: <target>" when none does |
| BackupCmd.BackupObject | internal/cmd/backup.go:588-592 | an object or null decodes; anything else is a decode error |
| BackupCmd.CountItems | internal/cmd/backup.go:649-654 | the length of a list, 0 for anything else |
| BackupCmd.PlanKey | internal/cmd/backup.go:616-629 | a key is restored iff present, to "<key>.json" with its data |
| BackupCmd.RestorePlan | internal/cmd/backup.go:616-629 | exactly the three known keys present in the backup are restored, each to "<key>.json" with its data |
| BackupCmd.WriteBack | internal/cmd/backup.go:600-613 | one report per planned file, restored or failed; no errors iff every write succeeds |
| BackupCmd.RestoreBackup | internal/cmd/backup.go:526-646 | a listing error, no backups and a failed selection (not found) are reported; a selected backup that fails to load or is not an object gives its load error; otherwise the selected backup and the write-back of its restore plan |
| BackupCmd.PlanOfFetched | internal/cmd/backup.go:616-629 | data holding the successful fetches restores exactly those kinds with the fetched data |
| BackupCmd.RestoreAfterBackup | internal/cmd/backup.go:616-629 | restoring what a backup collected writes exactly the successfully fetched kinds, with their data, to the files the backup saved them to |
| Menu.InitialModel | internal/tui/model.go:51-68 | seven choices with the menu's commands in order, cursor 0, neither selected nor quitting, 80x24 |
| Menu.CursorUp | internal/tui/model.go:88-93 | one up, or the last choice from the top |
| Menu.CursorDown | internal/tui/model.go:94-99 | one down modulo the number of choices |
| Menu.Update | internal/tui/model.go:76-106 | keeps the cursor in range; quits iff Enter, Ctrl-C, Esc or Ctrl-Q; Enter sets selected; Ctrl-C, Esc, Ctrl-Q set quitting; a resize changes only the size; only the arrow keys move the cursor |
| Menu.Run | internal/tui/model.go:76-106 | along any messages the cursor stays in range and the flags, once set, stay set |
| Menu.DownsAdvance | internal/tui/model.go:94-99 | k presses of Down move the cursor k places while it stays on the menu |
| Menu.DownsWrap | internal/tui/model.go:94-99 | past the last choice Down carries on from the first |
| Menu.FullCircle | internal/tui/model.go:94-99 | as many Downs as choices bring the state back to where it was |
| Menu.UpUndoesDown | internal/tui/model.go:88-99 | Down then Up, or Up then Down, is the identity |
| Menu.SetCursor | internal/tui/model.go:293-297 | moves the cursor only to a position on the menu |
| Menu.GetSelectedCommand | internal/tui/model.go:259-267 | the command under the cursor when selected and not quitting, otherwise "" |
| Menu.GetSelectedDisplay | internal/tui/model.go:270-275 | the label under the cursor, "" off the menu |
| Menu.EnterPicksCursor | internal/tui/model.go:85-102 | Enter yields the command under the cursor; after Esc no message yields a command |
| Menu.InitialPick | internal/tui/model.go:51-99 | from the start, k Downs and Enter pick the k-th command |

## Left out

- Network and foreign services are not modelled: the Ollama and Spotify clients, OAuth in `internal/cmd/auth.go`, and the AES-GCM wrapper in `internal/crypto`. Embeddings, chat replies, playlist listings and track fetches are inputs.
- File I/O is an input function: reading, writing, `MkdirAll`, `json.Marshal` and `json.Unmarshal`, buffered writers. Only which paths are read or written, and with what outcome, is modelled.
- Printing, the cobra command wiring, the `View` and `RenderCompact` menu rendering and lipgloss styles are left out; they hold no logic beyond formatting.
- `internal/config/config.go` (viper), `internal/cmd/root.go`, `cmd/models.go`, `config/package.go`, `cmd/main.go`, `examples/` and `test/` are not part of this model.
- Goroutines, channels, WaitGroups, the worker pool and context cancellation are replaced by their sequential outcome or by an arrival-order input; mutexes are not modelled.
- Floating point is modelled by exact reals; rounding in sums, averages, cosine similarity, percentages and sizes is not modelled.
- `regexp`, `time.Parse`, `fmt` `%v` rendering, `strings.ToLower` and the JSON encoding of tool results are functions received as inputs; their own behaviour is not modelled.
- `sort.Slice` is unstable; the model fixes one order for ties (insertion sort), so results are proved sorted and a permutation, not equal to the source's tie order.
- QueryEngine.Execute: the engine's per-source cache is not modelled (a file is read again on every query, which gives the same result while the file does not change), and `filepath.Clean` of the source path is not applied; read and parse errors arrive already formatted from the read input.
- `LoadModelConfig` (internal/config/models.go:62-78) reads and parses YAML; the parsed configuration is an input to the model.
- JsonUtil.Truncate: with a maxLen below 3 and a longer input the source slices out of range and panics; the model requires that case away.
- Storage.PathJoin: `filepath.Join` also cleans the path (".." and repeated slashes); the model only joins with a slash.
- Storage.CreateBackup: the `Items` field of the metadata and the JSON layout of the combined file are not modelled; the write is an input that reports the size.
- BackupCmd.SaveBackupFiles: the individual error strings of the concurrent writes are folded into the write inputs; only their presence and the "save errors" prefix are stated.
- BackupCmd.RestoreBackup: the JSON key order of the combined backup file is not modelled, and a restore reports the selected backup rather than the printed summary.
- QueryOps.StatsOp: the numeric statistics are stated with the corrected maximum; the source's maximum starting from 0 is modelled separately (see Findings).
- VectorStore.Save: the "failed to marshal documents" error is not represented; embeddings are exact reals, which always encode.
- VectorStore.Search: the query embedding is an input, so the embedding call itself and its context are not modelled.
- ChatCmd.HandleLine: end of input, read errors and the exit signal, which end the loop without a message, are not modelled. An input line is a string of characters, so it is assumed to be valid UTF-8: the rejection of a line with invalid UTF-8 (internal/cmd/chat.go:236-239, 406-408) is modelled by `ValidateChatInput` on bytes but cannot arise in a session step.
- ChatCmd.HandleLineCorrected: takes its line as characters too, with the same valid UTF-8 assumption.
- ChatCmd.HandleLineKeepsAnswered: holds only for the corrected loop `HandleLineCorrected`; the loop as written (`HandleLine`) can leave a tool call unanswered (see Findings).
- StatsCmd.GenreBars: requires a non-negative `--top`; a negative value reaches the slice `[:limit]` and panics in the source, which the model does not represent.
- Tools.AllArtistsTool: the get_all_artists tool answers with `GetAllArtists` as written, so it returns per-track artist lists; the corrected `GetAllArtistNames` is not wired into the tools.
- Menu.Update: the returned `tea.Cmd` is reduced to whether it asks to quit.

## Findings

| source | as written | input that shows it | evidently intended | confidence | as-written member | corrected member |
|---|---|---|---|---|---|---|
| internal/jsonutil/jsonutil.go:143-148 | `Truncate` cuts the byte string at maxLen-3, although its comment promises characters | "ééé" (six bytes) with maxLen 4 keeps only the first byte of "é" before "...", which is invalid UTF-8 | cut at a character boundary, counting characters | not executed | JsonUtil.TruncateSplitsCharacter | JsonUtil.TruncateText |
| internal/jsonquery/query.go:514-516 | `statsOp` starts the maximum at 0 and only raises it | field values [-5] report max 0, a value not in the data | the largest numeric value, as min is the smallest | not executed | QueryOps.StatsMaxOfNegatives | QueryOps.MaxOf |
| internal/cmd/chat.go:318-322 | when both models fail, the last message is removed, meant to be the user's message | after a tool round the last message is a tool result: removing it leaves the assistant's tool call unanswered and the user message in place | restore the history the turn started from | not executed | ChatCmd.RollbackDropsToolResult | ChatCmd.HandleLineKeepsAnswered |
| internal/jsonquery/query.go:754-761 | `GetAllArtists`, documented as returning all unique artists, runs distinct on "track.artists.name", which yields one list of names per track | one saved track by artists A and B gives the single item [A, B], and neither A nor B on its own | every artist name of the saved tracks once | not executed | QueryEngine.AllArtistsGivesLists | QueryEngine.GetAllArtistNames |
