/** Value semantics of the query engine: the three-way comparison
    `compareValues` and the filter predicates built on it. Library behaviour
    the engine relies on but does not define is supplied by an `Env`. */
module QueryValues {
  import opened Wrappers
  import opened Json
  import Text

  /** Library behaviour taken as given:
      - `render`: `fmt.Sprintf("%v", v)`;
      - `parseTime`: the first of the layouts RFC 3339, "2006-01-02T15:04:05Z",
        "2006-01-02" and "2006-01-02 15:04:05" that `time.Parse` accepts,
        as an instant;
      - `lower`: `strings.ToLower`;
      - `regexMatch(pattern, text)`: `regexp.Compile` then `MatchString`,
        `None` when the pattern does not compile;
      - `marshal`: the text of `json.Marshal(v)`. */
  datatype Env = Env(
    render: JValue -> string,
    parseTime: string -> Option<int>,
    lower: string -> string,
    regexMatch: (string, string) -> Option<bool>,
    marshal: JValue -> string)

  /** `toFloat64`: decoded JSON numbers are the only numeric values. */
  function ToNumber(v: JValue): (r: Option<real>)
    ensures r.Some? <==> v.JNum?
  {
    if v.JNum? then Some(v.n) else None
  }

  /** `toTime`: a string in one of the accepted layouts. */
  function ToTime(env: Env, v: JValue): (r: Option<int>)
    ensures r.Some? ==> v.JStr?
    ensures v.JStr? ==> r == env.parseTime(v.s)
  {
    if v.JStr? then env.parseTime(v.s) else None
  }

  /** Three-way comparison of integers or reals as -1, 0 or 1. */
  function Sign(d: real): (r: int)
    ensures -1 <= r <= 1
    ensures r < 0 <==> d < 0.0
    ensures r == 0 <==> d == 0.0
  {
    if d < 0.0 then -1 else if d > 0.0 then 1 else 0
  }

  /** `compareValues(a, b)`: nil is below everything; two numbers compare
      numerically, two times chronologically, anything else by the text of
      its `%v` rendering. */
  function CompareValues(env: Env, a: JValue, b: JValue): (r: int)
    ensures -1 <= r <= 1
    ensures a.JNull? && b.JNull? ==> r == 0
    ensures a.JNull? && !b.JNull? ==> r == -1
    ensures !a.JNull? && b.JNull? ==> r == 1
    ensures a.JNum? && b.JNum? ==> (r < 0 <==> a.n < b.n) && (r == 0 <==> a.n == b.n)
  {
    if a.JNull? && b.JNull? then 0
    else if a.JNull? then -1
    else if b.JNull? then 1
    else if ToNumber(a).Some? && ToNumber(b).Some? then
      Sign(ToNumber(a).value - ToNumber(b).value)
    else if ToTime(env, a).Some? && ToTime(env, b).Some? then
      Sign((ToTime(env, a).value - ToTime(env, b).value) as real)
    else Text.Compare(env.render(a), env.render(b))
  }

  /** Swapping the operands negates the comparison. */
  lemma CompareAntisymmetric(env: Env, a: JValue, b: JValue)
    ensures CompareValues(env, a, b) == -CompareValues(env, b, a)
  {
    Text.CompareAntisymmetric(env.render(a), env.render(b));
  }

  /** Every value compares equal to itself. */
  lemma CompareReflexive(env: Env, a: JValue)
    ensures CompareValues(env, a, a) == 0
  {
  }

  /** nil or a number. */
  predicate NumericKey(v: JValue)
  {
    v.JNull? || v.JNum?
  }

  /** nil or a string in a time layout. */
  predicate TimeKey(env: Env, v: JValue)
  {
    v.JNull? || ToTime(env, v).Some?
  }

  /** nil, or a value that is neither a number nor a time. */
  predicate TextKey(env: Env, v: JValue)
  {
    v.JNull? || (!v.JNum? && ToTime(env, v).None?)
  }

  /** The three values fall in one comparison class. */
  predicate SameClass(env: Env, a: JValue, b: JValue, c: JValue)
  {
    (NumericKey(a) && NumericKey(b) && NumericKey(c))
    || (TimeKey(env, a) && TimeKey(env, b) && TimeKey(env, c))
    || (TextKey(env, a) && TextKey(env, b) && TextKey(env, c))
  }

  /** Within one class the comparison is transitive. Across classes it is
      not: a number, a non-time string and another number can form a cycle. */
  lemma CompareTransitive(env: Env, a: JValue, b: JValue, c: JValue)
    requires SameClass(env, a, b, c)
    requires CompareValues(env, a, b) < 0 && CompareValues(env, b, c) < 0
    ensures CompareValues(env, a, c) < 0
  {
    if !a.JNull? && !b.JNull? && !c.JNull? && TextKey(env, a) && TextKey(env, b) && TextKey(env, c) {
      Text.CompareTransitive(env.render(a), env.render(b), env.render(c));
    }
  }

  /** `containsValue`: case-folded substring test on the renderings. */
  function ContainsValue(env: Env, value: JValue, search: JValue): (r: bool)
    ensures r <==> exists i :: Text.OccursAt(env.lower(env.render(value)), env.lower(env.render(search)), i)
  {
    var r := Text.Contains(env.lower(env.render(value)), env.lower(env.render(search)));
    Text.ContainsAt(env.lower(env.render(value)), env.lower(env.render(search)));
    r
  }

  /** `matchesRegex`: false when the pattern does not compile. */
  function MatchesRegex(env: Env, value: JValue, pattern: JValue): (r: bool)
    ensures r <==> env.regexMatch(env.render(pattern), env.render(value)) == Some(true)
    ensures env.regexMatch(env.render(pattern), env.render(value)).None? ==> !r
  {
    match env.regexMatch(env.render(pattern), env.render(value))
    case Some(m) => m
    case None => false
  }

  /** `inValues`: the filter value is a list holding an element equal to the
      field value under `compareValues`. */
  function InValues(env: Env, value: JValue, list: JValue): (r: bool)
    ensures r <==> list.JArr? && exists i :: 0 <= i < |list.items| && CompareValues(env, value, list.items[i]) == 0
  {
    list.JArr? && AnyEqual(env, value, list.items)
  }

  /** Some element of `items` compares equal to `value`. */
  function AnyEqual(env: Env, value: JValue, items: seq<JValue>): (r: bool)
    ensures r <==> exists i :: 0 <= i < |items| && CompareValues(env, value, items[i]) == 0
  {
    if |items| == 0 then false
    else
      var rest := AnyEqual(env, value, items[1..]);
      assert rest ==> exists i :: 0 <= i < |items| && CompareValues(env, value, items[i]) == 0 by {
        if rest {
          var i :| 0 <= i < |items[1..]| && CompareValues(env, value, items[1..][i]) == 0;
          assert items[i + 1] == items[1..][i];
        }
      }
      assert (exists i :: 0 <= i < |items| && CompareValues(env, value, items[i]) == 0)
        ==> CompareValues(env, value, items[0]) == 0 || rest by {
        if exists i :: 0 <= i < |items| && CompareValues(env, value, items[i]) == 0 {
          var i :| 0 <= i < |items| && CompareValues(env, value, items[i]) == 0;
          if i > 0 {
            assert items[1..][i - 1] == items[i];
          }
        }
      }
      CompareValues(env, value, items[0]) == 0 || rest
  }
}
