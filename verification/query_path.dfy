/** Dot-path access into decoded JSON (`getFieldValue` of the query engine):
    `"track.artists.0.name"` descends through object keys, array indices and,
    for a non-numeric segment on an array, through every element. */
module QueryPath {
  import opened Wrappers
  import opened Json
  import opened Text
  import Seqs
  import JsonUtil

  /** The white space `fmt.Sscanf` skips before a number: every space but a
      newline, which ends the scan instead. */
  function SkipSpace(s: string): (r: string)
    ensures |r| <= |s| && r == s[|s| - |r|..]
    ensures |r| > 0 ==> !IsSpace(r[0]) || r[0] == '\n'
  {
    if |s| > 0 && IsSpace(s[0]) && s[0] != '\n' then SkipSpace(s[1..]) else s
  }

  /** The longest prefix of decimal digits. */
  function DigitPrefix(s: string): (r: string)
    ensures r <= s
    ensures forall i :: 0 <= i < |r| ==> IsDigit(r[i])
    ensures |r| < |s| ==> !IsDigit(s[|r|])
  {
    if |s| > 0 && IsDigit(s[0]) then [s[0]] + DigitPrefix(s[1..]) else []
  }

  const MinInt64: int := -0x8000_0000_0000_0000
  const MaxInt64: int := 0x7FFF_FFFF_FFFF_FFFF

  /** `fmt.Sscanf(part, "%d", &idx)` into a 64-bit `int`: optional white
      space and sign, then at least one digit; trailing text is ignored and
      a value outside the 64-bit range is an error. */
  function ParseIndex(part: string): (r: Option<int>)
    ensures r.Some? ==> MinInt64 <= r.value <= MaxInt64
  {
    var t := SkipSpace(part);
    var negative := |t| > 0 && t[0] == '-';
    var rest := if |t| > 0 && (t[0] == '-' || t[0] == '+') then t[1..] else t;
    var digits := DigitPrefix(rest);
    if |digits| == 0 then None
    else
      var v: int := if negative then -(DecimalValue(digits) as int) else DecimalValue(digits);
      if MinInt64 <= v <= MaxInt64 then Some(v) else None
  }

  /** A decimal index reads back as itself. */
  lemma ParseIndexDecimal(n: nat)
    requires n <= MaxInt64
    ensures ParseIndex(NatToDecimal(n)) == Some(n)
  {
    var d := NatToDecimal(n);
    assert IsDigit(d[0]);
    assert !IsSpace(d[0]);
    assert SkipSpace(d) == d;
    DigitsAll(d);
    DecimalRoundTrip(n);
    assert d[0] != '-' && d[0] != '+';
  }

  /** A string of digits is its own digit prefix. */
  lemma {:induction false} DigitsAll(s: string)
    requires forall i :: 0 <= i < |s| ==> IsDigit(s[i])
    ensures DigitPrefix(s) == s
  {
    if |s| > 0 {
      DigitsAll(s[1..]);
    }
  }

  /** A segment without digits is never an index. */
  lemma NoDigitsNoIndex(part: string)
    requires forall i :: 0 <= i < |part| ==> !IsDigit(part[i])
    ensures ParseIndex(part).None?
  {
    var t := SkipSpace(part);
    if |t| > 1 {
      assert t[1] == part[|part| - |t| + 1];
    }
    if |t| > 0 {
      assert t[0] == part[|part| - |t|];
    }
  }

  /** `getFieldValue(item, part)` for one dot-free segment. */
  function Step(v: JValue, part: string): JValue
    decreases 1, v, 3
  {
    if part == "" then v else Walk(v, [part])
  }

  predicate NotNull(v: JValue)
  {
    !v.JNull?
  }

  /** Follow the segments of a dot path from `v`; `JNull` is Go's nil. */
  function Walk(v: JValue, parts: seq<string>): (r: JValue)
    decreases |parts|, v, 2
  {
    if |parts| == 0 then v
    else
      match v
      case JObj(fields) =>
        (match Lookup(fields, parts[0])
         case Some(x) => Walk(x, parts[1..])
         case None => JNull)
      case JArr(items) =>
        (match ParseIndex(parts[0])
         case Some(idx) => if 0 <= idx < |items| then Walk(items[idx], parts[1..]) else JNull
         case None =>
           var results := Gather(items, parts[0]);
           if |results| == 0 then JNull else Walk(JArr(results), parts[1..]))
      case _ => JNull
  }

  /** The segment applied to every element, in element order. */
  function Steps(items: seq<JValue>, part: string): (r: seq<JValue>)
    ensures |r| == |items| && forall i :: 0 <= i < |items| ==> r[i] == Step(items[i], part)
    decreases 1, JArr(items), 0
  {
    seq(|items|, i requires 0 <= i < |items| => Step(items[i], part))
  }

  /** The values the segment finds in the elements of an array. */
  function Gather(items: seq<JValue>, part: string): (r: seq<JValue>)
    ensures forall i :: 0 <= i < |r| ==> !r[i].JNull?
    ensures |r| <= |items|
    decreases 1, JArr(items), 1
  {
    Seqs.Filter(Steps(items, part), NotNull)
  }

  /** Gathering keeps exactly the non-nil step results, in element order. */
  lemma GatherNonNil(items: seq<JValue>, part: string)
    ensures Seqs.Filtered(Gather(items, part), Steps(items, part), NotNull)
  {
    Seqs.FilterFiltered(Steps(items, part), NotNull);
  }

  /** A final key segment on an array is the non-nil values it gathers. */
  lemma KeySegmentGathers(items: seq<JValue>, part: string)
    requires ParseIndex(part).None?
    ensures |Gather(items, part)| > 0 ==> Walk(JArr(items), [part]) == JArr(Gather(items, part))
  {
    assert [part][1..] == [];
  }

  /** `getFieldValue(data, path)`: the empty path is the value itself, any
      other path is split at every dot and walked. */
  function GetFieldValue(data: JValue, path: string): (r: JValue)
    ensures path == "" ==> r == data
  {
    if path == "" then data else Walk(data, Split(path, '.'))
  }

  /** A plain key on an object reads that member, or nil when absent. */
  lemma PlainKey(fields: seq<Member>, key: string)
    requires key != "" && '.' !in key
    ensures Lookup(fields, key).None? ==> GetFieldValue(JObj(fields), key) == JNull
    ensures Lookup(fields, key).Some? ==> GetFieldValue(JObj(fields), key) == Lookup(fields, key).value
  {
    SplitFree(key, '.');
    assert GetFieldValue(JObj(fields), key) == Walk(JObj(fields), [key]);
  }

  /** Descending into a number, string, bool or nil yields nil. */
  lemma ScalarYieldsNull(v: JValue, parts: seq<string>)
    requires !v.JObj? && !v.JArr? && |parts| > 0
    ensures Walk(v, parts) == JNull
  {
  }

  /** A missing key yields nil. */
  lemma MissingKeyYieldsNull(fields: seq<Member>, parts: seq<string>)
    requires |parts| > 0 && Lookup(fields, parts[0]).None?
    ensures Walk(JObj(fields), parts) == JNull
  {
  }

  /** A numeric segment outside the array (negative or too large) yields nil. */
  lemma IndexOutOfRangeYieldsNull(items: seq<JValue>, parts: seq<string>)
    requires |parts| > 0 && ParseIndex(parts[0]).Some?
    requires !(0 <= ParseIndex(parts[0]).value < |items|)
    ensures Walk(JArr(items), parts) == JNull
  {
  }

  /** Walking a path in two pieces is walking it at once. */
  lemma {:induction false} WalkAppend(v: JValue, p: seq<string>, q: seq<string>)
    ensures Walk(v, p + q) == Walk(Walk(v, p), q)
    decreases |p|, 1
  {
    if |p| == 0 {
      assert p + q == q;
    } else {
      if v.JObj? {
        WalkAppendObject(v.fields, p, q);
      } else if v.JArr? {
        WalkAppendArray(v.items, p, q);
      } else {
        ScalarYieldsNull(v, p);
        ScalarYieldsNull(v, p + q);
        if |q| > 0 {
          ScalarYieldsNull(JNull, q);
        }
      }
    }
  }

  lemma {:induction false} WalkAppendObject(fields: seq<Member>, p: seq<string>, q: seq<string>)
    requires |p| > 0
    ensures Walk(JObj(fields), p + q) == Walk(Walk(JObj(fields), p), q)
    decreases |p|, 0
  {
    assert (p + q)[0] == p[0];
    assert (p + q)[1..] == p[1..] + q;
    match Lookup(fields, p[0]) {
      case Some(x) =>
        WalkAppend(x, p[1..], q);
      case None =>
    }
  }

  lemma {:induction false} WalkAppendArray(items: seq<JValue>, p: seq<string>, q: seq<string>)
    requires |p| > 0
    ensures Walk(JArr(items), p + q) == Walk(Walk(JArr(items), p), q)
    decreases |p|, 0
  {
    assert (p + q)[0] == p[0];
    assert (p + q)[1..] == p[1..] + q;
    match ParseIndex(p[0]) {
      case Some(idx) =>
        if 0 <= idx < |items| {
          WalkAppend(items[idx], p[1..], q);
        }
      case None =>
        var g := Gather(items, p[0]);
        if |g| > 0 {
          WalkAppend(JArr(g), p[1..], q);
        }
    }
  }

  /** Paths compose: reading `a.b` is reading `b` inside the value at `a`. */
  lemma DottedPathComposes(data: JValue, a: string, b: string)
    requires a != "" && b != ""
    ensures GetFieldValue(data, a + "." + b) == GetFieldValue(GetFieldValue(data, a), b)
  {
    SplitConcat(a, b, '.');
    WalkAppend(data, Split(a, '.'), Split(b, '.'));
  }

  /** A non-empty `GetNestedString` result is the string a path walk finds. */
  lemma {:induction false} NestedStringIsWalk(m: seq<Member>, keys: seq<string>)
    requires JsonUtil.GetNestedString(m, keys) != ""
    ensures Walk(JObj(m), keys) == JStr(JsonUtil.GetNestedString(m, keys))
  {
    if |keys| > 1 {
      var next := GetObject(m, keys[0]).value;
      NestedStringIsWalk(next, keys[1..]);
    }
  }
}
