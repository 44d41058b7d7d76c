/** The operations of the JSON query engine over the loaded, filtered rows:
    filters, select with pagination, sort, sample, distinct, group, search,
    the aggregations and the field statistics. */
module QueryOps {
  import opened Wrappers
  import opened Json
  import Text
  import Seqs
  import Sorting
  import opened QueryPath
  import opened QueryValues

  /** A filter condition on the value at a dot path. */
  datatype Filter = Filter(field: string, operator: string, value: JValue)

  /** A structured query; the zero value of a Go field is "" or 0 here. */
  datatype Query = Query(
    source: string,
    operation: string,
    field: string,
    filters: seq<Filter>,
    sortBy: string,
    sortOrder: string,
    limit: int,
    offset: int,
    searchTerm: string,
    aggFunc: string,
    groupBy: string)

  datatype NumericStats = NumericStats(count: nat, sum: real, avg: real, min: real, max: real)

  datatype StringStats = StringStats(unique: nat, mostCommon: string, mostCommonCount: nat)

  /** The `stats` map: "total_count" always, the numeric and string parts only
      when a field was given and such values were found. */
  datatype FieldStats = FieldStats(totalCount: nat, numeric: Option<NumericStats>, strings: Option<StringStats>)

  /** The dynamic `Data` of a result; `NoData` is Go's nil. */
  datatype Payload =
    | NoData
    | Items(items: seq<JValue>)
    | Value(value: JValue)
    | Number(number: real)
    | Groups(groups: seq<Seqs.Entry>)
    | Stats(stats: FieldStats)
    | LibraryCounts(savedTracks: int, playlists: int, followedArtists: int)

  /** `QueryResult` without its human-readable `Summary`. */
  datatype QueryResult = QueryResult(count: int, data: Payload, error: string)

  /** `QueryResult{Error: msg}`. */
  function Failure(msg: string): QueryResult
  {
    QueryResult(0, NoData, msg)
  }

  // ---------------------------------------------------------------- filters

  const Operators: set<string> :=
    {"eq", "ne", "gt", "gte", "lt", "lte", "contains", "regex", "in", "exists", "not_exists"}

  /** `matchesFilter`: one condition on the value at the filter's path. */
  function MatchesFilter(env: Env, item: JValue, f: Filter): (r: bool)
    ensures f.operator !in Operators ==> !r
    ensures f.operator == "exists" ==> (r <==> !GetFieldValue(item, f.field).JNull?)
    ensures f.operator == "not_exists" ==> (r <==> GetFieldValue(item, f.field).JNull?)
  {
    var value := GetFieldValue(item, f.field);
    var c := CompareValues(env, value, f.value);
    var op := f.operator;
    if op == "eq" then c == 0
    else if op == "ne" then c != 0
    else if op == "gt" then c > 0
    else if op == "gte" then c >= 0
    else if op == "lt" then c < 0
    else if op == "lte" then c <= 0
    else if op == "contains" then ContainsValue(env, value, f.value)
    else if op == "regex" then MatchesRegex(env, value, f.value)
    else if op == "in" then InValues(env, value, f.value)
    else if op == "exists" then value != JNull
    else if op == "not_exists" then value == JNull
    else false
  }

  /** The comparison operators come in complementary pairs, and `gt` on the
      field is `lt` with the operands exchanged. */
  lemma OperatorDuals(env: Env, item: JValue, field: string, v: JValue)
    ensures MatchesFilter(env, item, Filter(field, "ne", v)) == !MatchesFilter(env, item, Filter(field, "eq", v))
    ensures MatchesFilter(env, item, Filter(field, "lt", v)) == !MatchesFilter(env, item, Filter(field, "gte", v))
    ensures MatchesFilter(env, item, Filter(field, "lte", v)) == !MatchesFilter(env, item, Filter(field, "gt", v))
    ensures MatchesFilter(env, item, Filter(field, "not_exists", v)) == !MatchesFilter(env, item, Filter(field, "exists", v))
    ensures MatchesFilter(env, item, Filter(field, "gt", v)) <==> CompareValues(env, v, GetFieldValue(item, field)) < 0
  {
    CompareAntisymmetric(env, v, GetFieldValue(item, field));
  }

  /** `matchesFilters`: every condition holds. */
  predicate MatchesAll(env: Env, item: JValue, filters: seq<Filter>)
  {
    forall k :: 0 <= k < |filters| ==> MatchesFilter(env, item, filters[k])
  }

  function Matcher(env: Env, filters: seq<Filter>): JValue -> bool
  {
    item => MatchesAll(env, item, filters)
  }

  /** `applyFilters`: the rows that satisfy every filter, in order. */
  function ApplyFilters(env: Env, data: seq<JValue>, filters: seq<Filter>): (r: seq<JValue>)
    ensures |filters| == 0 ==> r == data
    ensures Seqs.Subsequence(r, data)
    ensures forall i :: 0 <= i < |r| ==> MatchesAll(env, r[i], filters)
    ensures forall x :: MatchesAll(env, x, filters) ==> multiset(r)[x] == multiset(data)[x]
  {
    if |filters| == 0 then
      assert Seqs.Subsequence(data, data) by { SubsequenceRefl(data); }
      data
    else
      var r := Seqs.Filter(data, Matcher(env, filters));
      Seqs.FilterSubsequence(data, Matcher(env, filters));
      assert forall x :: MatchesAll(env, x, filters) ==> multiset(r)[x] == multiset(data)[x] by {
        forall x | MatchesAll(env, x, filters) {
          Seqs.FilterCount(data, Matcher(env, filters), x);
        }
      }
      r
  }

  lemma {:induction false} SubsequenceRefl(s: seq<JValue>)
    ensures Seqs.Subsequence(s, s)
  {
    if |s| > 0 {
      SubsequenceRefl(s[..|s| - 1]);
    }
  }

  // ------------------------------------------------------------------- sort

  /** The values at `field` of the rows. */
  function Keys(data: seq<JValue>, field: string): (r: seq<JValue>)
    ensures |r| == |data|
  {
    seq(|data|, i requires 0 <= i < |data| => GetFieldValue(data[i], field))
  }

  /** The `less` of `sortData`: `compareValues` on the sort field, reversed
      when the order is "desc". */
  function KeyLess(env: Env, sortBy: string, order: string): (JValue, JValue) -> bool
  {
    (x: JValue, y: JValue) =>
      var c := CompareValues(env, GetFieldValue(x, sortBy), GetFieldValue(y, sortBy));
      if order == "desc" then c > 0 else c < 0
  }

  /** `sortData`: a sorted copy; the input sequence is a value and stays as
      it is. */
  function SortData(env: Env, data: seq<JValue>, sortBy: string, order: string): (r: seq<JValue>)
    ensures multiset(r) == multiset(data)
    ensures |r| == |data|
  {
    Sorting.Sort(KeyLess(env, sortBy, order), data)
  }

  /** All keys are of one comparison class, where `compareValues` orders. */
  predicate UniformKeys(env: Env, keys: seq<JValue>)
  {
    (forall i :: 0 <= i < |keys| ==> NumericKey(keys[i]))
    || (forall i :: 0 <= i < |keys| ==> TimeKey(env, keys[i]))
    || (forall i :: 0 <= i < |keys| ==> TextKey(env, keys[i]))
  }

  lemma UniformSameClass(env: Env, keys: seq<JValue>, i: nat, j: nat, k: nat)
    requires UniformKeys(env, keys) && i < |keys| && j < |keys| && k < |keys|
    ensures SameClass(env, keys[i], keys[j], keys[k])
  {
  }

  /** `KeyLess` is a strict order on rows whose sort keys are uniform. */
  lemma KeyLessStrict(env: Env, data: seq<JValue>, sortBy: string, order: string)
    requires UniformKeys(env, Keys(data, sortBy))
    ensures Sorting.StrictOrderOn(KeyLess(env, sortBy, order), data)
  {
    var less := KeyLess(env, sortBy, order);
    var keys := Keys(data, sortBy);
    forall i | 0 <= i < |data|
      ensures !less(data[i], data[i])
    {
      CompareReflexive(env, keys[i]);
    }
    forall i, j, k | 0 <= i < |data| && 0 <= j < |data| && 0 <= k < |data|
      ensures less(data[i], data[j]) && less(data[j], data[k]) ==> less(data[i], data[k])
    {
      UniformSameClass(env, keys, i, j, k);
      UniformSameClass(env, keys, k, j, i);
      if less(data[i], data[j]) && less(data[j], data[k]) {
        if order == "desc" {
          CompareAntisymmetric(env, keys[i], keys[j]);
          CompareAntisymmetric(env, keys[j], keys[k]);
          CompareAntisymmetric(env, keys[i], keys[k]);
          CompareTransitive(env, keys[k], keys[j], keys[i]);
        } else {
          CompareTransitive(env, keys[i], keys[j], keys[k]);
        }
      }
    }
  }

  /** With uniform sort keys, `sortData` orders the rows by their keys:
      ascending, or descending exactly when the order is "desc". */
  lemma SortDataOrdered(env: Env, data: seq<JValue>, sortBy: string, order: string)
    requires UniformKeys(env, Keys(data, sortBy))
    ensures var r := SortData(env, data, sortBy, order);
      forall i, j :: 0 <= i < j < |r| ==>
        var c := CompareValues(env, GetFieldValue(r[i], sortBy), GetFieldValue(r[j], sortBy));
        if order == "desc" then c >= 0 else c <= 0
  {
    var less := KeyLess(env, sortBy, order);
    KeyLessStrict(env, data, sortBy, order);
    Sorting.SortSorted(less, data);
    var r := SortData(env, data, sortBy, order);
    forall i, j | 0 <= i < j < |r|
      ensures var c := CompareValues(env, GetFieldValue(r[i], sortBy), GetFieldValue(r[j], sortBy));
        if order == "desc" then c >= 0 else c <= 0
    {
      assert !less(r[j], r[i]);
      CompareAntisymmetric(env, GetFieldValue(r[i], sortBy), GetFieldValue(r[j], sortBy));
    }
  }

  // ----------------------------------------------------------------- select

  /** The rows left after skipping `offset` rows, as `selectOp` pages. */
  function Skip(data: seq<JValue>, offset: int): (r: seq<JValue>)
    ensures offset <= 0 ==> r == data
    ensures offset > 0 ==> r == data[if offset < |data| then offset else |data|..]
  {
    if offset > 0 then (if offset >= |data| then [] else data[offset..]) else data
  }

  /** Where a page starting at `offset` begins in `n` rows. */
  function PageStart(n: nat, offset: int): (r: nat)
    ensures r <= n
  {
    if offset <= 0 then 0 else if offset < n then offset else n
  }

  /** The page of `selectOp`: skip `offset` rows, then keep at most `limit`
      (all when `limit` is not positive) — a run of consecutive rows. */
  function Page(s: seq<JValue>, offset: int, limit: int): (r: seq<JValue>)
    ensures var start := PageStart(|s|, offset);
      |r| == (if 0 < limit < |s| - start then limit else |s| - start)
      && r == s[start..start + |r|]
  {
    var rest := Skip(s, offset);
    var r := Seqs.ApplyLimit(rest, limit);
    assert r == rest[..|r|];
    r
  }

  /** `selectOp` (and `filterOp`): optionally sort, skip `offset` rows, cut to
      `limit`, and with a field keep only its non-nil values. */
  function SelectOp(env: Env, data: seq<JValue>, q: Query): (r: QueryResult)
    ensures r.error == "" && r.data.Items? && r.count == |r.data.items|
    ensures q.field == "" ==>
      var base := if q.sortBy != "" then SortData(env, data, q.sortBy, q.sortOrder) else data;
      var start := PageStart(|data|, q.offset);
      var rest := |data| - start;
      |r.data.items| == (if 0 < q.limit < rest then q.limit else rest)
      && r.data.items == base[start..start + |r.data.items|]
  {
    var sorted := if q.sortBy != "" then SortData(env, data, q.sortBy, q.sortOrder) else data;
    var page := Page(sorted, q.offset, q.limit);
    if q.field != "" then
      var extracted := Seqs.Filter(Keys(page, q.field), NotNull);
      QueryResult(|extracted|, Items(extracted), "")
    else
      QueryResult(|page|, Items(page), "")
  }

  /** With a field, the result is the non-nil field values of the rows of
      the page, in page order. */
  lemma SelectOpExtracts(env: Env, data: seq<JValue>, q: Query)
    requires q.field != ""
    ensures var base := if q.sortBy != "" then SortData(env, data, q.sortBy, q.sortOrder) else data;
      Seqs.Filtered(SelectOp(env, data, q).data.items, Keys(Page(base, q.offset, q.limit), q.field), NotNull)
  {
    var base := if q.sortBy != "" then SortData(env, data, q.sortBy, q.sortOrder) else data;
    Seqs.FilterFiltered(Keys(Page(base, q.offset, q.limit), q.field), NotNull);
  }

  // ------------------------------------------------------------- sort op

  /** `sortOp`: sort_by is required; sort, then cut to `limit`. */
  function SortOp(env: Env, data: seq<JValue>, q: Query): (r: QueryResult)
    ensures q.sortBy == "" ==> r == Failure("sort_by is required for sort operation")
    ensures q.sortBy != "" ==>
      (r.error == "" && r.data.Items? && r.count == |r.data.items|
       && Seqs.LimitedTo(r.data.items, SortData(env, data, q.sortBy, q.sortOrder), q.limit))
  {
    if q.sortBy == "" then Failure("sort_by is required for sort operation")
    else
      var sorted := Seqs.ApplyLimit(SortData(env, data, q.sortBy, q.sortOrder), q.limit);
      Seqs.ApplyLimitLimited(SortData(env, data, q.sortBy, q.sortOrder), q.limit);
      QueryResult(|sorted|, Items(sorted), "")
  }

  // ----------------------------------------------------------------- sample

  /** The sampling loop of `sampleOp`: from index `i`, take every `step`-th
      row until `limit` rows are taken or the rows run out. */
  function SampleLoop(data: seq<JValue>, step: nat, limit: nat, i: nat, sample: seq<JValue>): seq<JValue>
    requires step > 0
    decreases |data| - i
  {
    if i < |data| && |sample| < limit then SampleLoop(data, step, limit, i + step, sample + [data[i]])
    else sample
  }

  /** `sample` holds the rows at 0, step, 2·step, … */
  predicate Spaced(data: seq<JValue>, step: nat, sample: seq<JValue>)
  {
    forall k :: 0 <= k < |sample| ==> k * step < |data| && sample[k] == data[k * step]
  }

  /** When `limit` steps fit in the rows, the loop takes exactly the rows at
      0, step, 2·step, … */
  lemma {:induction false} SampleLoopTakes(data: seq<JValue>, step: nat, limit: nat, i: nat, sample: seq<JValue>)
    requires step > 0 && limit * step <= |data|
    requires |sample| <= limit && i == |sample| * step
    requires Spaced(data, step, sample)
    ensures |SampleLoop(data, step, limit, i, sample)| == limit
    ensures Spaced(data, step, SampleLoop(data, step, limit, i, sample))
    decreases |data| - i
  {
    if |sample| < limit {
      StepFits(|sample|, limit, step);
      assert i < |data|;
      var next := sample + [data[i]];
      assert (|sample| + 1) * step == i + step;
      assert Spaced(data, step, next) by {
        forall k | 0 <= k < |next|
          ensures k * step < |data| && next[k] == data[k * step]
        {
          if k < |sample| {
            assert next[k] == sample[k];
          }
        }
      }
      SampleLoopTakes(data, step, limit, i + step, next);
    }
  }

  /** One more step still fits below `limit` steps. */
  lemma StepFits(k: nat, limit: nat, step: nat)
    requires k < limit
    ensures k * step + step <= limit * step
  {
    assert (limit - k) * step == limit * step - k * step;
    assert (limit - k) * step >= step by {
      assert limit - k >= 1;
    }
  }

  /** The effective sample size: a non-positive limit means 5. */
  function SampleSize(limit: int): (r: int)
    ensures r > 0
    ensures limit > 0 ==> r == limit
  {
    if limit <= 0 then 5 else limit
  }

  /** `sampleOp`: all rows when they do not exceed the sample size, otherwise
      exactly that many rows, evenly spaced from the first. */
  function SampleOp(data: seq<JValue>, q: Query): (r: QueryResult)
    ensures r.error == "" && r.data.Items? && r.count == |r.data.items|
    ensures SampleSize(q.limit) >= |data| ==> r.data.items == data
    ensures SampleSize(q.limit) < |data| ==>
      var n := SampleSize(q.limit);
      |r.data.items| == n && Spaced(data, |data| / n, r.data.items)
  {
    var limit := SampleSize(q.limit);
    if limit >= |data| then QueryResult(|data|, Items(data), "")
    else
      var step := |data| / limit;
      assert step > 0;
      assert limit * step <= |data|;
      SampleLoopTakes(data, step, limit, 0, []);
      var sample := SampleLoop(data, step, limit, 0, []);
      QueryResult(|sample|, Items(sample), "")
  }

  // --------------------------------------------------------------- distinct

  /** The field values (nil included) of the rows, one per `%v` rendering. */
  function DistinctValues(env: Env, data: seq<JValue>, field: string): (d: seq<JValue>)
  {
    Seqs.DistinctBy(Keys(data, field), env.render)
  }

  /** The distinct values are the first field value of every rendering, in
      row order: no rendering twice and none missing. */
  lemma DistinctValuesFirst(env: Env, data: seq<JValue>, field: string)
    ensures var d, vals := DistinctValues(env, data, field), Keys(data, field);
      Seqs.Subsequence(d, vals)
      && (forall i, j :: 0 <= i < j < |d| ==> env.render(d[i]) != env.render(d[j]))
      && (forall i :: 0 <= i < |d| ==> Seqs.FirstOfKey(vals, env.render, d[i]))
      && Seqs.KeySet(d, env.render) == Seqs.KeySet(vals, env.render)
  {
    Seqs.DistinctByFirst(Keys(data, field), env.render);
  }

  /** `distinctOp`: a field is required; the distinct field values, cut to
      the first `limit` of them. */
  function DistinctOp(env: Env, data: seq<JValue>, q: Query): (r: QueryResult)
    ensures q.field == "" ==> r == Failure("field is required for distinct operation")
    ensures q.field != "" ==>
      r.error == "" && r.data.Items? && r.count == |r.data.items|
      && Seqs.LimitedTo(r.data.items, DistinctValues(env, data, q.field), q.limit)
  {
    if q.field == "" then Failure("field is required for distinct operation")
    else
      var d := Seqs.ApplyLimit(DistinctValues(env, data, q.field), q.limit);
      Seqs.ApplyLimitLimited(DistinctValues(env, data, q.field), q.limit);
      QueryResult(|d|, Items(d), "")
  }

  // ------------------------------------------------------------------ group

  /** The `%v` renderings of the group-by values of the rows. */
  function GroupKeys(env: Env, data: seq<JValue>, groupBy: string): (r: seq<string>)
    ensures |r| == |data|
  {
    seq(|data|, i requires 0 <= i < |data| => env.render(GetFieldValue(data[i], groupBy)))
  }

  function CountGreater(a: Seqs.Entry, b: Seqs.Entry): bool
  {
    a.count > b.count
  }

  function EntryKey(e: Seqs.Entry): string
  {
    e.key
  }

  /** Each entry carries the number of occurrences of its key. */
  predicate CountsOccurrences(r: seq<Seqs.Entry>, keys: seq<string>)
  {
    forall i :: 0 <= i < |r| ==> r[i].count == multiset(keys)[r[i].key] > 0
  }

  /** Every key that occurs has an entry. */
  predicate CoversKeys(r: seq<Seqs.Entry>, keys: seq<string>)
  {
    forall x :: x in multiset(keys) ==> HasKey(r, x)
  }

  /** Some entry of `r` has key `x`. */
  predicate HasKey(r: seq<Seqs.Entry>, x: string)
  {
    exists i :: 0 <= i < |r| && r[i].key == x
  }

  /** A permutation keeps every key. */
  lemma KeyInPermutation(t: seq<Seqs.Entry>, r: seq<Seqs.Entry>, j: nat)
    requires j < |t| && multiset(r) == multiset(t)
    ensures HasKey(r, t[j].key)
  {
    assert t[j] in multiset(t);
    assert t[j] in multiset(r);
    var i :| 0 <= i < |r| && r[i] == t[j];
  }

  /** Counts never increase along the entries. */
  predicate ByCountDescending(r: seq<Seqs.Entry>)
  {
    forall i, j :: 0 <= i < j < |r| ==> r[i].count >= r[j].count
  }

  /** The groups of `groupOp` before the limit: one entry per distinct key
      with its number of rows, by non-increasing count, the counts adding up
      to the number of rows. */
  function GroupCounts(env: Env, data: seq<JValue>, groupBy: string): (r: seq<Seqs.Entry>)
    ensures Seqs.DistinctKeys(r)
    ensures CountsOccurrences(r, GroupKeys(env, data, groupBy))
    ensures CoversKeys(r, GroupKeys(env, data, groupBy))
    ensures ByCountDescending(r)
    ensures Seqs.Total(r) == |data|
  {
    var keys := GroupKeys(env, data, groupBy);
    var t := Seqs.Tally(keys);
    var r := Sorting.Sort(CountGreater, t);
    SortedTallyFacts(keys);
    Seqs.TotalPermutation(t, r);
    Seqs.TallyTotal(keys);
    r
  }

  /** The sorted tally of `groupOp`. */
  lemma SortedTallyFacts(keys: seq<string>)
    ensures var r := Sorting.Sort(CountGreater, Seqs.Tally(keys));
      Seqs.DistinctKeys(r) && CountsOccurrences(r, keys) && CoversKeys(r, keys) && ByCountDescending(r)
  {
    var t := Seqs.Tally(keys);
    var r := Sorting.Sort(CountGreater, t);
    Sorting.SortSorted(CountGreater, t);
    SortedTallyDistinct(keys);
    SortedTallyCounts(keys);
    SortedTallyCovers(keys);
  }

  /** Sorting the tally keeps its keys distinct. */
  lemma SortedTallyDistinct(keys: seq<string>)
    ensures Seqs.DistinctKeys(Sorting.Sort(CountGreater, Seqs.Tally(keys)))
  {
    var t := Seqs.Tally(keys);
    var r := Sorting.Sort(CountGreater, t);
    Sorting.SortDistinct(CountGreater, t, EntryKey);
    forall i, j | 0 <= i < j < |r|
      ensures r[i].key != r[j].key
    {
      assert EntryKey(r[i]) != EntryKey(r[j]);
    }
  }

  lemma SortedTallyCounts(keys: seq<string>)
    ensures CountsOccurrences(Sorting.Sort(CountGreater, Seqs.Tally(keys)), keys)
  {
    var t := Seqs.Tally(keys);
    var r := Sorting.Sort(CountGreater, t);
    forall i | 0 <= i < |r|
      ensures r[i].count == multiset(keys)[r[i].key] > 0
    {
      assert r[i] in multiset(t);
      var j :| 0 <= j < |t| && t[j] == r[i];
      Seqs.CountOfEntry(t, j);
    }
  }

  lemma SortedTallyCovers(keys: seq<string>)
    ensures CoversKeys(Sorting.Sort(CountGreater, Seqs.Tally(keys)), keys)
  {
    var t := Seqs.Tally(keys);
    var r := Sorting.Sort(CountGreater, t);
    forall x | x in multiset(keys)
      ensures HasKey(r, x)
    {
      Seqs.TallyKeys(keys, x);
      var j :| 0 <= j < |t| && t[j].key == x;
      KeyInPermutation(t, r, j);
    }
  }

  /** `groupOp`: the groups cut to `limit`; `Count` is the number of groups
      before the cut. */
  function GroupOp(env: Env, data: seq<JValue>, q: Query): (r: QueryResult)
    ensures r.error == "" && r.data.Groups?
    ensures r.count == |GroupCounts(env, data, q.groupBy)|
    ensures r.data.groups <= GroupCounts(env, data, q.groupBy)
    ensures |r.data.groups| < r.count <==> 0 < q.limit < r.count
  {
    var groups := GroupCounts(env, data, q.groupBy);
    QueryResult(|groups|, Groups(Seqs.ApplyLimit(groups, q.limit)), "")
  }

  // ----------------------------------------------------------------- search

  /** `itemContainsText` with a lower-cased term: the rendering of the field,
      or with no field the JSON text of the whole row, contains the term
      after lower-casing. */
  function ItemMatches(env: Env, term: string, field: string): JValue -> bool
  {
    item =>
      if field != "" then Text.Contains(env.lower(env.render(GetFieldValue(item, field))), term)
      else Text.Contains(env.lower(env.marshal(item)), term)
  }

  /** The rows that contain the lower-cased term. */
  function MatchingRows(env: Env, data: seq<JValue>, term: string, field: string): (r: seq<JValue>)
  {
    Seqs.Filter(data, ItemMatches(env, env.lower(term), field))
  }

  /** The matching rows are exactly the rows that contain the term, in row
      order, each as often as in the data. */
  lemma MatchingRowsFiltered(env: Env, data: seq<JValue>, term: string, field: string)
    ensures Seqs.Filtered(MatchingRows(env, data, term, field), data, ItemMatches(env, env.lower(term), field))
  {
    Seqs.FilterFiltered(data, ItemMatches(env, env.lower(term), field));
  }

  /** `searchOp`: a search term is required; the matching rows in order, cut
      to the first `limit` of them. */
  function SearchOp(env: Env, data: seq<JValue>, q: Query): (r: QueryResult)
    ensures q.searchTerm == "" ==> r == Failure("search_term is required for search operation")
    ensures q.searchTerm != "" ==>
      r.error == "" && r.data.Items? && r.count == |r.data.items|
      && Seqs.LimitedTo(r.data.items, MatchingRows(env, data, q.searchTerm, q.field), q.limit)
  {
    if q.searchTerm == "" then Failure("search_term is required for search operation")
    else
      var results := Seqs.ApplyLimit(MatchingRows(env, data, q.searchTerm, q.field), q.limit);
      Seqs.ApplyLimitLimited(MatchingRows(env, data, q.searchTerm, q.field), q.limit);
      QueryResult(|results|, Items(results), "")
  }

  // ------------------------------------------------------------ aggregation

  predicate IsNumber(v: JValue)
  {
    v.JNum?
  }

  /** The numbers among `vals`, in order (`toFloat64` succeeding). */
  function Numbers(vals: seq<JValue>): (r: seq<real>)
    ensures |r| <= |vals|
  {
    if |vals| == 0 then []
    else
      var init := Numbers(vals[..|vals| - 1]);
      var last := vals[|vals| - 1];
      if last.JNum? then init + [last.n] else init
  }

  /** `Numbers` reads back the number-filter of the values. */
  lemma {:induction false} NumbersAreFilter(vals: seq<JValue>)
    ensures var ns := Numbers(vals);
      seq(|ns|, i requires 0 <= i < |ns| => JNum(ns[i])) == Seqs.Filter(vals, IsNumber)
  {
    if |vals| > 0 {
      NumbersAreFilter(vals[..|vals| - 1]);
    }
  }

  /** The sum of a sequence of numbers. */
  function Sum(xs: seq<real>): real
  {
    if |xs| == 0 then 0.0 else Sum(xs[..|xs| - 1]) + xs[|xs| - 1]
  }

  /** A sum splits over a concatenation. */
  lemma {:induction false} SumConcat(a: seq<real>, b: seq<real>)
    ensures Sum(a + b) == Sum(a) + Sum(b)
    decreases |b|
  {
    if |b| == 0 {
      assert a + b == a;
    } else {
      SumConcat(a, b[..|b| - 1]);
      assert (a + b)[..|a + b| - 1] == a + b[..|b| - 1];
    }
  }

  /** `minOp`'s loop: skip nil, replace the current minimum by a value that
      compares below it. */
  function MinValue(env: Env, vals: seq<JValue>): JValue
  {
    if |vals| == 0 then JNull
    else
      var m := MinValue(env, vals[..|vals| - 1]);
      var v := vals[|vals| - 1];
      if v.JNull? then m
      else if m.JNull? || CompareValues(env, v, m) < 0 then v
      else m
  }

  /** `maxOp`'s loop: skip nil, replace the current maximum by a value that
      compares above it. */
  function MaxValue(env: Env, vals: seq<JValue>): JValue
  {
    if |vals| == 0 then JNull
    else
      var m := MaxValue(env, vals[..|vals| - 1]);
      var v := vals[|vals| - 1];
      if v.JNull? then m
      else if m.JNull? || CompareValues(env, v, m) > 0 then v
      else m
  }

  /** Equal under `compareValues` within a class means interchangeable. */
  lemma CompareEqualSubst(env: Env, a: JValue, b: JValue, c: JValue)
    requires SameClass(env, a, b, c) && CompareValues(env, a, b) == 0
    ensures CompareValues(env, a, c) == CompareValues(env, b, c)
  {
    if !a.JNull? && !b.JNull? && !c.JNull? && TextKey(env, a) && TextKey(env, b) && TextKey(env, c) {
      assert env.render(a) == env.render(b);
    }
  }

  /** The minimum is nil exactly when every value is nil; otherwise it is
      one of the values and, with uniform values, none compares below it. */
  lemma {:induction false} MinValueLeast(env: Env, vals: seq<JValue>)
    ensures var m := MinValue(env, vals);
      (m.JNull? <==> forall i :: 0 <= i < |vals| ==> vals[i].JNull?)
      && (!m.JNull? ==> m in vals)
      && (UniformKeys(env, vals) ==>
            forall i :: 0 <= i < |vals| && !vals[i].JNull? ==> CompareValues(env, vals[i], m) >= 0)
  {
    if |vals| > 0 {
      var init := vals[..|vals| - 1];
      var v := vals[|vals| - 1];
      MinValueLeast(env, init);
      var m := MinValue(env, init);
      assert forall i :: 0 <= i < |init| ==> vals[i] == init[i];
      if UniformKeys(env, vals) {
        assert UniformKeys(env, init);
        if !v.JNull? && !m.JNull? && CompareValues(env, v, m) < 0 {
          var mi :| 0 <= mi < |init| && init[mi] == m;
          forall i | 0 <= i < |init| && !init[i].JNull?
            ensures CompareValues(env, init[i], v) >= 0
          {
            UniformSameClass(env, vals, i, mi, |vals| - 1);
            UniformSameClass(env, vals, |vals| - 1, mi, i);
            CompareAntisymmetric(env, init[i], v);
            CompareAntisymmetric(env, m, v);
            if CompareValues(env, init[i], m) == 0 {
              CompareEqualSubst(env, init[i], m, v);
            } else {
              CompareAntisymmetric(env, init[i], m);
              CompareTransitive(env, v, m, init[i]);
            }
          }
        }
        if !v.JNull? && !m.JNull? && CompareValues(env, v, m) >= 0 {
          CompareAntisymmetric(env, v, m);
        }
        if !v.JNull? {
          CompareReflexive(env, v);
        }
      }
    }
  }

  /** The maximum is nil exactly when every value is nil; otherwise it is
      one of the values and, with uniform values, none compares above it. */
  lemma {:induction false} MaxValueGreatest(env: Env, vals: seq<JValue>)
    ensures var m := MaxValue(env, vals);
      (m.JNull? <==> forall i :: 0 <= i < |vals| ==> vals[i].JNull?)
      && (!m.JNull? ==> m in vals)
      && (UniformKeys(env, vals) ==>
            forall i :: 0 <= i < |vals| && !vals[i].JNull? ==> CompareValues(env, vals[i], m) <= 0)
  {
    if |vals| > 0 {
      var init := vals[..|vals| - 1];
      var v := vals[|vals| - 1];
      MaxValueGreatest(env, init);
      var m := MaxValue(env, init);
      assert forall i :: 0 <= i < |init| ==> vals[i] == init[i];
      if UniformKeys(env, vals) {
        assert UniformKeys(env, init);
        if !v.JNull? && !m.JNull? && CompareValues(env, v, m) > 0 {
          var mi :| 0 <= mi < |init| && init[mi] == m;
          forall i | 0 <= i < |init| && !init[i].JNull?
            ensures CompareValues(env, init[i], v) <= 0
          {
            UniformSameClass(env, vals, i, mi, |vals| - 1);
            CompareAntisymmetric(env, init[i], v);
            CompareAntisymmetric(env, m, v);
            if CompareValues(env, init[i], m) == 0 {
              CompareEqualSubst(env, init[i], m, v);
            } else {
              CompareTransitive(env, init[i], m, v);
            }
          }
        }
        if !v.JNull? && !m.JNull? && CompareValues(env, v, m) <= 0 {
          CompareAntisymmetric(env, v, m);
        }
        if !v.JNull? {
          CompareReflexive(env, v);
        }
      }
    }
  }

  const AggFuncs: set<string> := {"count", "sum", "avg", "min", "max", "group"}

  /** `countOp`. */
  function CountOp(data: seq<JValue>): (r: QueryResult)
    ensures r.count == |data| && r.error == "" && r.data == NoData
  {
    QueryResult(|data|, NoData, "")
  }

  /** `aggregateOp`: dispatch on the aggregation function. `sum` and `avg`
      add the numbers at the field; `min` and `max` keep the extreme non-nil
      value under `compareValues`; `Count` is the number of rows except for
      `avg`, where it is the number of numbers. */
  function AggregateOp(env: Env, data: seq<JValue>, q: Query): (r: QueryResult)
    ensures q.aggFunc !in AggFuncs ==> r == Failure("unknown aggregation function: " + q.aggFunc)
    ensures q.aggFunc in AggFuncs ==> r.error == ""
    ensures q.aggFunc in {"count", "sum", "min", "max"} ==> r.count == |data|
    ensures q.aggFunc == "sum" ==> r.data == Number(Sum(Numbers(Keys(data, q.field))))
    ensures q.aggFunc == "avg" ==>
      var ns := Numbers(Keys(data, q.field));
      r.count == |ns| && r.data.Number? && r.data.number * (|ns| as real) == Sum(ns)
    ensures q.aggFunc == "min" ==> r.data == Value(MinValue(env, Keys(data, q.field)))
    ensures q.aggFunc == "max" ==> r.data == Value(MaxValue(env, Keys(data, q.field)))
    ensures q.aggFunc == "group" ==> r == GroupOp(env, data, q)
  {
    var vals := Keys(data, q.field);
    if q.aggFunc == "count" then CountOp(data)
    else if q.aggFunc == "sum" then QueryResult(|data|, Number(Sum(Numbers(vals))), "")
    else if q.aggFunc == "avg" then
      var ns := Numbers(vals);
      if |ns| == 0 then QueryResult(0, Number(0.0), "")
      else QueryResult(|ns|, Number(Sum(ns) / (|ns| as real)), "")
    else if q.aggFunc == "min" then QueryResult(|data|, Value(MinValue(env, vals)), "")
    else if q.aggFunc == "max" then QueryResult(|data|, Value(MaxValue(env, vals)), "")
    else if q.aggFunc == "group" then GroupOp(env, data, q)
    else Failure("unknown aggregation function: " + q.aggFunc)
  }

  // ------------------------------------------------------------------ stats

  /** The running minimum of `statsOp`: the first number, then any smaller
      one. */
  function MinOf(xs: seq<real>): (r: real)
    requires |xs| > 0
    ensures r in xs
    ensures forall i :: 0 <= i < |xs| ==> r <= xs[i]
  {
    if |xs| == 1 then xs[0]
    else
      var m := MinOf(xs[..|xs| - 1]);
      assert forall i :: 0 <= i < |xs| - 1 ==> xs[..|xs| - 1][i] == xs[i];
      if xs[|xs| - 1] < m then xs[|xs| - 1] else m
  }

  /** The running maximum as `statsOp` computes it: starting from 0, any
      larger number replaces it. */
  function MaxFromZero(xs: seq<real>): (r: real)
    ensures r >= 0.0
    ensures forall i :: 0 <= i < |xs| ==> xs[i] <= r
  {
    if |xs| == 0 then 0.0
    else
      var m := MaxFromZero(xs[..|xs| - 1]);
      assert forall i :: 0 <= i < |xs| - 1 ==> xs[..|xs| - 1][i] == xs[i];
      if xs[|xs| - 1] > m then xs[|xs| - 1] else m
  }

  /** Starting from 0, the reported maximum of all-negative numbers is 0,
      which is none of them. */
  lemma StatsMaxOfNegatives()
    ensures MaxFromZero([-5.0]) == 0.0 && 0.0 !in [-5.0]
    ensures MaxOf([-5.0]) == -5.0
  {
    assert [-5.0][..0] == [];
  }

  /** The maximum as intended: the largest of the numbers. */
  function MaxOf(xs: seq<real>): (r: real)
    requires |xs| > 0
    ensures r in xs
    ensures forall i :: 0 <= i < |xs| ==> xs[i] <= r
  {
    if |xs| == 1 then xs[0]
    else
      var m := MaxOf(xs[..|xs| - 1]);
      assert forall i :: 0 <= i < |xs| - 1 ==> xs[..|xs| - 1][i] == xs[i];
      if xs[|xs| - 1] > m then xs[|xs| - 1] else m
  }

  /** The two agree whenever some number is not negative. */
  lemma {:induction false} MaxFromZeroAgrees(xs: seq<real>)
    requires |xs| > 0 && exists i :: 0 <= i < |xs| && xs[i] >= 0.0
    ensures MaxFromZero(xs) == MaxOf(xs)
  {
    var m := MaxOf(xs);
    var z := MaxFromZero(xs);
    assert z in xs || z == 0.0 by {
      MaxFromZeroMember(xs);
    }
  }

  /** The running maximum from 0 is 0 or one of the numbers. */
  lemma {:induction false} MaxFromZeroMember(xs: seq<real>)
    ensures MaxFromZero(xs) in xs || MaxFromZero(xs) == 0.0
  {
    if |xs| > 0 {
      MaxFromZeroMember(xs[..|xs| - 1]);
      assert forall x :: x in xs[..|xs| - 1] ==> x in xs;
    }
  }

  /** The first entry of largest count in iteration order (`v > maxCount`
      starting from 0), or ("", 0) when there is none. */
  function MostCommon(entries: seq<Seqs.Entry>): (r: Seqs.Entry)
    ensures forall i :: 0 <= i < |entries| ==> entries[i].count <= r.count
    ensures |entries| == 0 ==> r == Seqs.Entry("", 0)
    ensures r.count > 0 ==> r in entries
  {
    if |entries| == 0 then Seqs.Entry("", 0)
    else
      var m := MostCommon(entries[..|entries| - 1]);
      assert forall i :: 0 <= i < |entries| - 1 ==> entries[..|entries| - 1][i] == entries[i];
      if entries[|entries| - 1].count > m.count then entries[|entries| - 1] else m
  }

  /** The non-nil, non-numeric values' renderings. */
  function Texts(env: Env, vals: seq<JValue>): (r: seq<string>)
    ensures |r| <= |vals|
  {
    if |vals| == 0 then []
    else
      var init := Texts(env, vals[..|vals| - 1]);
      var v := vals[|vals| - 1];
      if v.JNull? || v.JNum? then init else init + [env.render(v)]
  }

  /** Every non-nil value is counted once, as a number or as a text. */
  lemma {:induction false} NumbersTextsPartition(env: Env, vals: seq<JValue>)
    ensures |Numbers(vals)| + |Texts(env, vals)| == |Seqs.Filter(vals, NotNull)|
  {
    if |vals| > 0 {
      NumbersTextsPartition(env, vals[..|vals| - 1]);
    }
  }

  /** The numeric part of `statsOp`, present when there are numbers. */
  function NumericStatsOf(ns: seq<real>): (r: Option<NumericStats>)
    ensures r.Some? <==> |ns| > 0
    ensures r.Some? ==>
      var s := r.value;
      s.count == |ns| && s.sum == Sum(ns) && s.avg * (|ns| as real) == s.sum
      && s.min in ns && s.max in ns
      && forall i :: 0 <= i < |ns| ==> s.min <= ns[i] <= s.max
  {
    if |ns| > 0 then Some(NumericStats(|ns|, Sum(ns), Sum(ns) / (|ns| as real), MinOf(ns), MaxOf(ns)))
    else None
  }

  /** The string part of `statsOp`, present when there are other values:
      the number of distinct renderings and a most frequent one. */
  function StringStatsOf(ts: seq<string>): (r: Option<StringStats>)
    ensures r.Some? <==> |ts| > 0
    ensures r.Some? ==>
      var s := r.value;
      s.unique == |Seqs.Tally(ts)|
      && s.mostCommonCount == multiset(ts)[s.mostCommon] > 0
      && forall x :: multiset(ts)[x] <= s.mostCommonCount
  {
    var tally := Seqs.Tally(ts);
    if |tally| > 0 then
      var mc := MostCommon(tally);
      MostCommonFacts(ts);
      Some(StringStats(|tally|, mc.key, mc.count))
    else
      None
  }

  /** The most common entry of a tally is a most frequent key. */
  lemma MostCommonFacts(ts: seq<string>)
    requires |Seqs.Tally(ts)| > 0
    ensures var mc := MostCommon(Seqs.Tally(ts));
      mc.count == multiset(ts)[mc.key] > 0 && forall x :: multiset(ts)[x] <= mc.count
  {
    var tally := Seqs.Tally(ts);
    var mc := MostCommon(tally);
    assert mc.count >= tally[0].count > 0;
    var j :| 0 <= j < |tally| && tally[j] == mc;
    Seqs.CountOfEntry(tally, j);
    forall x
      ensures multiset(ts)[x] <= mc.count
    {
      var k := Seqs.IndexOf(tally, x);
      assert Seqs.CountOf(tally, x) == multiset(ts)[x];
    }
  }

  /** `statsOp`: the number of rows, and for a field the statistics of its
      numeric values and the tallies of the renderings of its other non-nil
      values. The maximum is the largest number (see `MaxFromZero` for the
      value the source reports). */
  function StatsOp(env: Env, data: seq<JValue>, q: Query): (r: QueryResult)
    ensures r.error == "" && r.count == |data| && r.data.Stats? && r.data.stats.totalCount == |data|
    ensures q.field == "" ==> r.data.stats.numeric.None? && r.data.stats.strings.None?
    ensures q.field != "" ==> r.data.stats.numeric == NumericStatsOf(Numbers(Keys(data, q.field)))
    ensures q.field != "" ==> r.data.stats.strings == StringStatsOf(Texts(env, Keys(data, q.field)))
  {
    if q.field == "" then QueryResult(|data|, Stats(FieldStats(|data|, None, None)), "")
    else
      var vals := Keys(data, q.field);
      QueryResult(|data|, Stats(FieldStats(|data|, NumericStatsOf(Numbers(vals)), StringStatsOf(Texts(env, vals)))), "")
  }
}
