/**
 * The pure helpers of utils/helpers.py: percentage ratios, the service and
 * experiment config validators, the recursive config merge, percentiles,
 * retries and string truncation.
 *
 * A configuration value is a number, a string or a dictionary; a
 * dictionary is its list of entries in insertion order, each key at most
 * once, as a Python `dict` keeps them.  Exceptions are values of `Raised`.
 */
module Helpers {
  import opened Wrappers
  import opened Seqs

  datatype Value = Num(n: real) | Text(s: string) | Dict(items: seq<Entry>)
  datatype Entry = Entry(key: string, value: Value)

  /** What a helper raises. */
  datatype Raised =
    | TypeError(key: string)        // a comparison with a value that is not a number
    | IndexError                    // an index outside the list
    | RaisedNone                    // `raise None` when no attempt was made
    | OperationError(message: string)

  // ---------------------------------------------------------------------
  // Dictionaries as entry lists
  // ---------------------------------------------------------------------

  /** The keys of a dictionary. */
  function Keys(d: seq<Entry>): set<string>
  {
    set k | 0 <= k < |d| :: d[k].key
  }

  /** The keys of a dictionary with one more entry in front. */
  lemma KeysCons(e: Entry, t: seq<Entry>)
    ensures Keys([e] + t) == {e.key} + Keys(t)
  {
    var r := [e] + t;
    forall x | x in Keys(r)
      ensures x in {e.key} + Keys(t)
    {
      var k :| 0 <= k < |r| && r[k].key == x;
      if k > 0 {
        assert t[k - 1] == r[k];
      }
    }
    forall x | x in Keys(t)
      ensures x in Keys(r)
    {
      var k :| 0 <= k < |t| && t[k].key == x;
      assert r[k + 1] == t[k];
    }
    assert r[0] == e;
  }

  /** Each key appears once, as in a Python `dict`. */
  predicate UniqueKeys(d: seq<Entry>)
  {
    forall i, j | 0 <= i < j < |d| :: d[i].key != d[j].key
  }

  /** `d.get(key)`. */
  function Lookup(d: seq<Entry>, key: string): Option<Value>
  {
    if d == [] then None
    else if d[0].key == key then Some(d[0].value)
    else Lookup(d[1..], key)
  }

  /** A lookup finds a value exactly for the keys of the dictionary. */
  lemma {:induction false} LookupKeys(d: seq<Entry>, key: string)
    ensures Lookup(d, key).None? <==> key !in Keys(d)
  {
    if d != [] {
      assert d == [d[0]] + d[1..];
      KeysCons(d[0], d[1..]);
      LookupKeys(d[1..], key);
    }
  }

  /** `d[key] = value`: an existing key keeps its position, a new one goes last. */
  function Put(d: seq<Entry>, key: string, value: Value): seq<Entry>
  {
    if d == [] then [Entry(key, value)]
    else if d[0].key == key then [Entry(key, value)] + d[1..]
    else [d[0]] + Put(d[1..], key, value)
  }

  /** After a `Put`, the key reads back the new value and every other key reads as before. */
  lemma {:induction false} PutLookup(d: seq<Entry>, key: string, value: Value, other: string)
    ensures Lookup(Put(d, key, value), other) == if other == key then Some(value) else Lookup(d, other)
  {
    if d != [] && d[0].key != key {
      PutLookup(d[1..], key, value, other);
    }
  }

  /** A `Put` adds its key to the key set. */
  lemma {:induction false} PutKeys(d: seq<Entry>, key: string, value: Value)
    ensures Keys(Put(d, key, value)) == Keys(d) + {key}
  {
    if d == [] {
      KeysCons(Entry(key, value), []);
      assert Put(d, key, value) == [Entry(key, value)] + [];
    } else {
      assert d == [d[0]] + d[1..];
      KeysCons(d[0], d[1..]);
      if d[0].key == key {
        KeysCons(Entry(key, value), d[1..]);
      } else {
        PutKeys(d[1..], key, value);
        KeysCons(d[0], Put(d[1..], key, value));
      }
    }
  }

  /** A `Put` keeps the keys unique. */
  lemma {:induction false} PutUnique(d: seq<Entry>, key: string, value: Value)
    requires UniqueKeys(d)
    ensures UniqueKeys(Put(d, key, value))
  {
    if d != [] {
      var r := Put(d, key, value);
      var t := Put(d[1..], key, value);
      if d[0].key == key {
        assert forall k | 1 <= k < |r| :: r[k] == d[k];
      } else {
        assert UniqueKeys(d[1..]) by {
          assert forall k | 0 <= k < |d| - 1 :: d[1..][k] == d[k + 1];
        }
        PutUnique(d[1..], key, value);
        PutKeys(d[1..], key, value);
        assert d[0].key !in Keys(d[1..]) by {
          assert forall k | 0 <= k < |d| - 1 :: d[1..][k] == d[k + 1];
        }
        assert d[0].key !in Keys(t);
        forall i, j | 0 <= i < j < |r|
          ensures r[i].key != r[j].key
        {
          assert r[j] == t[j - 1];
          if i > 0 {
            assert r[i] == t[i - 1];
          } else {
            assert t[j - 1].key in Keys(t);
          }
        }
      }
    }
  }

  // ---------------------------------------------------------------------
  // `calculate_availability` and `calculate_error_rate`
  // ---------------------------------------------------------------------

  /**
   * `part / whole * 100`, and 0.0 when `whole` is 0.  As a proportion of a
   * whole it lies in [0, 100] and is 100 exactly when the part is the whole.
   */
  function Percentage(part: int, whole: int): (r: real)
    ensures whole == 0 ==> r == 0.0
    ensures whole != 0 ==> r * whole as real == part as real * 100.0
    ensures 0 <= part <= whole && 0 < whole ==> 0.0 <= r <= 100.0 && (r == 100.0 <==> part == whole)
  {
    if whole == 0 then 0.0
    else
      RatioFacts(part as real, whole as real);
      (part as real / whole as real) * 100.0
  }

  /** The ratio `x / y` scaled to a percentage, and its range for a part of a whole. */
  lemma RatioFacts(x: real, y: real)
    requires y != 0.0
    ensures ((x / y) * 100.0) * y == x * 100.0
    ensures 0.0 <= x <= y ==> 0.0 <= (x / y) * 100.0 <= 100.0 && ((x / y) * 100.0 == 100.0 <==> x == y)
  {
    var q := x / y;
    assert q * y == x;
    assert (q * 100.0) * y == (q * y) * 100.0;
    if 0.0 <= x <= y {
      assert 0.0 < y;
      assert 0.0 <= q <= 1.0;
      if q == 1.0 {
        assert x == y;
      }
    }
  }

  // ---------------------------------------------------------------------
  // `validate_service_config`
  // ---------------------------------------------------------------------

  datatype ConfigError =
    | MissingField(field: string)
    | InitialBelowOne
    | MinBelowOne
    | MinAboveMax
    | InitialBelowMin
    | InvalidProbability(experimentType: string, probability: real)

  /** The fields a service configuration must have, in the order they are checked. */
  function RequiredFields(): seq<string>
  {
    ["type", "initial_instances", "min_instances", "max_instances"]
  }

  /** A `MissingField` error for each listed field the configuration lacks, in list order. */
  function MissingFields(config: seq<Entry>, fields: seq<string>): seq<ConfigError>
  {
    if fields == [] then []
    else
      (if Lookup(config, fields[0]).None? then [MissingField(fields[0])] else [])
      + MissingFields(config, fields[1..])
  }

  /** Exactly the absent fields are reported, and nothing else. */
  lemma {:induction false} MissingFieldsMeaning(config: seq<Entry>, fields: seq<string>)
    ensures forall e | e in MissingFields(config, fields) :: e.MissingField?
    ensures forall f :: MissingField(f) in MissingFields(config, fields) <==> f in fields && Lookup(config, f).None?
    ensures MissingFields(config, fields) == [] <==> forall f | f in fields :: Lookup(config, f).Some?
  {
    if fields != [] {
      MissingFieldsMeaning(config, fields[1..]);
      assert fields == [fields[0]] + fields[1..];
      if Lookup(config, fields[0]).None? {
        assert MissingField(fields[0]) in MissingFields(config, fields);
      }
    }
  }

  /** The numeric checks after the missing-field loop; a non-number compared raises. */
  function RangeErrors(config: seq<Entry>): Result<seq<ConfigError>, Raised>
  {
    var initial := Lookup(config, "initial_instances");
    var min := Lookup(config, "min_instances");
    var max := Lookup(config, "max_instances");
    if initial.Some? && !initial.value.Num? then Err(TypeError("initial_instances"))
    else if min.Some? && !min.value.Num? then Err(TypeError("min_instances"))
    else if min.Some? && max.Some? && !max.value.Num? then Err(TypeError("max_instances"))
    else
      Ok((if initial.Some? && initial.value.n < 1.0 then [InitialBelowOne] else [])
         + (if min.Some? && min.value.n < 1.0 then [MinBelowOne] else [])
         + (if min.Some? && max.Some? && min.value.n > max.value.n then [MinAboveMax] else [])
         + (if initial.Some? && min.Some? && initial.value.n < min.value.n then [InitialBelowMin] else []))
  }

  /** A service configuration with every field present and consistent. */
  predicate SoundServiceConfig(config: seq<Entry>)
  {
    var initial := Lookup(config, "initial_instances");
    var min := Lookup(config, "min_instances");
    var max := Lookup(config, "max_instances");
    Lookup(config, "type").Some?
    && initial.Some? && initial.value.Num? && min.Some? && min.value.Num? && max.Some? && max.value.Num?
    && 1.0 <= min.value.n <= max.value.n && min.value.n <= initial.value.n
  }

  /**
   * `validate_service_config`: the missing-field errors, then the numeric
   * ones.
   */
  method ValidateServiceConfig(config: seq<Entry>) returns (r: Result<seq<ConfigError>, Raised>)
    ensures r == (var range := RangeErrors(config);
                  if range.Err? then range else Ok(MissingFields(config, RequiredFields()) + range.value))
  {
    var errors := ReportMissing(config, RequiredFields());
    var range := RangeErrors(config);
    if range.Err? {
      return range;
    }
    r := Ok(errors + range.value);
  }

  /** The missing-field loop of `validate_service_config`. */
  method ReportMissing(config: seq<Entry>, fields: seq<string>) returns (errors: seq<ConfigError>)
    ensures errors == MissingFields(config, fields)
  {
    errors := [];
    var i := 0;
    while i < |fields|
      invariant 0 <= i <= |fields|
      invariant errors + MissingFields(config, fields[i..]) == MissingFields(config, fields)
    {
      assert fields[i..][1..] == fields[i + 1..];
      if Lookup(config, fields[i]).None? {
        errors := errors + [MissingField(fields[i])];
      }
      i := i + 1;
    }
    assert fields[i..] == [];
    assert errors == errors + [];
  }

  /**
   * The validator finds nothing exactly for a sound configuration; it
   * reports a field as missing exactly when the field is required and
   * absent.
   */
  lemma ServiceConfigVerdict(config: seq<Entry>)
    ensures var range := RangeErrors(config);
      (range.Ok? && MissingFields(config, RequiredFields()) + range.value == [])
        <==> SoundServiceConfig(config)
    ensures forall f ::
      ((MissingField(f) in MissingFields(config, RequiredFields()))
         <==> f in RequiredFields() && Lookup(config, f).None?)
  {
    MissingFieldsMeaning(config, RequiredFields());
    var range := RangeErrors(config);
    var missing := MissingFields(config, RequiredFields());
    assert (forall f | f in RequiredFields() :: Lookup(config, f).Some?)
       <==> (Lookup(config, "type").Some? && Lookup(config, "initial_instances").Some?
             && Lookup(config, "min_instances").Some? && Lookup(config, "max_instances").Some?);
  }

  // ---------------------------------------------------------------------
  // `validate_experiment_config`
  // ---------------------------------------------------------------------

  /** The probability an experiment entry sets, when the entry is a dictionary holding one. */
  function ProbabilityOf(v: Value): Option<Value>
  {
    if v.Dict? then Lookup(v.items, "probability") else None
  }

  /** An entry whose probability is a number outside [0, 1]. */
  predicate OutOfRange(e: Entry)
  {
    var p := ProbabilityOf(e.value);
    p.Some? && p.value.Num? && !(0.0 <= p.value.n <= 1.0)
  }

  /** The errors of `validate_experiment_config` over the entries, in order. */
  function ProbabilityErrors(config: seq<Entry>): Result<seq<ConfigError>, Raised>
  {
    if config == [] then Ok([])
    else
      var p := ProbabilityOf(config[0].value);
      if p.Some? && !p.value.Num? then Err(TypeError(config[0].key))
      else
        var rest := ProbabilityErrors(config[1..]);
        if rest.Err? then rest
        else if OutOfRange(config[0]) then Ok([InvalidProbability(config[0].key, p.value.n)] + rest.value)
        else rest
  }

  /** The errors found so far followed by those of the remaining entries. */
  function Then(found: seq<ConfigError>, rest: Result<seq<ConfigError>, Raised>): Result<seq<ConfigError>, Raised>
  {
    if rest.Err? then rest else Ok(found + rest.value)
  }

  /** `validate_experiment_config`, walking the entries in order. */
  method ValidateExperimentConfig(config: seq<Entry>) returns (r: Result<seq<ConfigError>, Raised>)
    ensures r == ProbabilityErrors(config)
  {
    var errors: seq<ConfigError> := [];
    var i := 0;
    assert Then([], ProbabilityErrors(config)) == ProbabilityErrors(config) by {
      assert forall x: seq<ConfigError> :: [] + x == x;
    }
    while i < |config|
      invariant 0 <= i <= |config|
      invariant ProbabilityErrors(config) == Then(errors, ProbabilityErrors(config[i..]))
    {
      assert config[i..][0] == config[i] && config[i..][1..] == config[i + 1..];
      var p := ProbabilityOf(config[i].value);
      if p.Some? && !p.value.Num? {
        assert ProbabilityErrors(config[i..]) == Err(TypeError(config[i].key));
        return Err(TypeError(config[i].key));
      }
      if p.Some? && !(0.0 <= p.value.n <= 1.0) {
        var found := InvalidProbability(config[i].key, p.value.n);
        assert forall x :: errors + ([found] + x) == (errors + [found]) + x;
        errors := errors + [found];
      }
      i := i + 1;
    }
    assert config[i..] == [] && errors + [] == errors;
    r := Ok(errors);
  }

  /**
   * When no probability is a non-number, exactly the entries whose
   * probability lies outside [0, 1] are reported, each with its value.
   */
  lemma {:induction false} ProbabilityVerdict(config: seq<Entry>)
    requires forall k | 0 <= k < |config| :: var p := ProbabilityOf(config[k].value); p.Some? ==> p.value.Num?
    ensures ProbabilityErrors(config).Ok?
    ensures forall name, p ::
      ((InvalidProbability(name, p) in ProbabilityErrors(config).value)
         <==> exists k | 0 <= k < |config| :: config[k].key == name && OutOfRange(config[k])
                                          && ProbabilityOf(config[k].value).value.n == p)
  {
    if config != [] {
      var tail := config[1..];
      assert forall k | 0 <= k < |tail| :: tail[k] == config[k + 1];
      ProbabilityVerdict(tail);
      forall name, p
        ensures InvalidProbability(name, p) in ProbabilityErrors(config).value
          <==> exists k | 0 <= k < |config| :: config[k].key == name && OutOfRange(config[k])
                                              && ProbabilityOf(config[k].value).value.n == p
      {
        if exists k | 0 <= k < |config| :: config[k].key == name && OutOfRange(config[k])
                                           && ProbabilityOf(config[k].value).value.n == p {
          var k :| 0 <= k < |config| && config[k].key == name && OutOfRange(config[k])
                   && ProbabilityOf(config[k].value).value.n == p;
          if k > 0 {
            assert tail[k - 1] == config[k];
          }
        }
      }
    }
  }

  // ---------------------------------------------------------------------
  // `merge_configs`
  // ---------------------------------------------------------------------

  /** How many entries a dictionary holds, nested ones included. */
  function Size(d: seq<Entry>): nat
  {
    if d == [] then 0
    else 1 + (match d[0].value case Dict(sub) => Size(sub) case _ => 0) + Size(d[1..])
  }

  /**
   * The value `merge_configs` stores for a key whose override is `value`:
   * two dictionaries merge, anything else is replaced.
   */
  function Combined(current: Option<Value>, value: Value): Value
    decreases if value.Dict? then Size(value.items) else 0, 1
  {
    if current.Some? && current.value.Dict? && value.Dict? then Dict(Merged(current.value.items, value.items))
    else value
  }

  /** `merge_configs(base, override)`: the override entries applied to a copy of `base`, in order. */
  function Merged(base: seq<Entry>, override: seq<Entry>): (r: seq<Entry>)
    ensures Keys(r) == Keys(base) + Keys(override)
    decreases Size(override), 0
  {
    if override == [] then base
    else
      var e := override[0];
      var value := Combined(Lookup(base, e.key), e.value);
      PutKeys(base, e.key, value);
      assert override == [e] + override[1..];
      KeysCons(e, override[1..]);
      Merged(Put(base, e.key, value), override[1..])
  }

  /** `merge_configs`, with its loop over the override entries and its recursive calls. */
  method MergeConfigs(base: seq<Entry>, override: seq<Entry>) returns (merged: seq<Entry>)
    ensures merged == Merged(base, override)
    decreases Size(override)
  {
    merged := base;
    var i := 0;
    while i < |override|
      invariant 0 <= i <= |override|
      invariant Merged(merged, override[i..]) == Merged(base, override)
      invariant Size(override[i..]) <= Size(override)
    {
      var e := override[i];
      assert override[i..][0] == e && override[i..][1..] == override[i + 1..];
      var current := Lookup(merged, e.key);
      var value := e.value;
      if current.Some? && current.value.Dict? && value.Dict? {
        assert Size(value.items) < Size(override[i..]) <= Size(override);
        var sub := MergeConfigs(current.value.items, value.items);
        value := Dict(sub);
      }
      merged := Put(merged, e.key, value);
      i := i + 1;
    }
    assert override[i..] == [];
  }

  /**
   * After the merge, a key the override sets holds the override value, or
   * the recursive merge when both values are dictionaries; a key only in
   * the base keeps its base value.
   */
  lemma {:induction false} MergedLookup(base: seq<Entry>, override: seq<Entry>, key: string)
    requires UniqueKeys(override)
    ensures Lookup(Merged(base, override), key) ==
      if Lookup(override, key).Some? then Some(Combined(Lookup(base, key), Lookup(override, key).value))
      else Lookup(base, key)
    decreases |override|
  {
    if override != [] {
      var e := override[0];
      var tail := override[1..];
      var next := Put(base, e.key, Combined(Lookup(base, e.key), e.value));
      assert UniqueKeys(tail) by {
        assert forall k | 0 <= k < |tail| :: tail[k] == override[k + 1];
      }
      MergedLookup(next, tail, key);
      PutLookup(base, e.key, Combined(Lookup(base, e.key), e.value), key);
      if key == e.key {
        assert key !in Keys(tail) by {
          assert forall k | 0 <= k < |tail| :: tail[k] == override[k + 1];
        }
        LookupKeys(tail, key);
      }
    }
  }

  /** The merged keys are the base keys and the override keys, each once. */
  lemma {:induction false} MergedKeys(base: seq<Entry>, override: seq<Entry>)
    requires UniqueKeys(base)
    ensures Keys(Merged(base, override)) == Keys(base) + Keys(override)
    ensures UniqueKeys(Merged(base, override))
    decreases |override|
  {
    if override != [] {
      var e := override[0];
      var tail := override[1..];
      var next := Put(base, e.key, Combined(Lookup(base, e.key), e.value));
      PutKeys(base, e.key, Combined(Lookup(base, e.key), e.value));
      PutUnique(base, e.key, Combined(Lookup(base, e.key), e.value));
      MergedKeys(next, tail);
      assert Keys(override) == {e.key} + Keys(tail) by {
        assert override == [e] + tail;
        KeysCons(e, tail);
      }
    }
  }

  // ---------------------------------------------------------------------
  // `calculate_percentile`
  // ---------------------------------------------------------------------

  predicate SortedReals(s: seq<real>)
  {
    forall i, j | 0 <= i < j < |s| :: s[i] <= s[j]
  }

  /** `x` put in place in an ordered list. */
  function Insert(x: real, s: seq<real>): seq<real>
  {
    if s == [] || x <= s[0] then [x] + s
    else [s[0]] + Insert(x, s[1..])
  }

  /** Inserting adds exactly `x`. */
  lemma {:induction false} InsertCount(x: real, s: seq<real>)
    ensures multiset(Insert(x, s)) == multiset(s) + multiset{x}
  {
    if s != [] && x > s[0] {
      InsertCount(x, s[1..]);
      assert s == [s[0]] + s[1..];
    }
  }

  /** Inserting into an ordered list keeps it ordered; the head is the smaller of `x` and the old head. */
  lemma {:induction false} InsertOrdered(x: real, s: seq<real>)
    requires SortedReals(s)
    ensures SortedReals(Insert(x, s)) && |Insert(x, s)| == |s| + 1
    ensures Insert(x, s)[0] == if s == [] || x <= s[0] then x else s[0]
  {
    if s != [] && x > s[0] {
      var tail := s[1..];
      var t := Insert(x, tail);
      assert SortedReals(tail) by {
        assert forall k | 0 <= k < |tail| :: tail[k] == s[k + 1];
      }
      InsertOrdered(x, tail);
      assert s[0] <= t[0];
      var r := [s[0]] + t;
      forall i, j | 0 <= i < j < |r|
        ensures r[i] <= r[j]
      {
        assert r[j] == t[j - 1];
        if i > 0 {
          assert r[i] == t[i - 1];
        } else {
          assert t[0] <= t[j - 1];
        }
      }
    }
  }

  /** `sorted(values)`: the values in ascending order. */
  function Sorted(values: seq<real>): (r: seq<real>)
    ensures SortedReals(r) && multiset(r) == multiset(values)
  {
    if values == [] then []
    else
      assert values == [values[0]] + values[1..];
      var rest := Sorted(values[1..]);
      InsertOrdered(values[0], rest);
      InsertCount(values[0], rest);
      Insert(values[0], rest)
  }

  /** `s[i]` for a Python index: a negative one counts from the end. */
  function PyIndex(s: seq<real>, i: int): Result<real, Raised>
  {
    if 0 <= i < |s| then Ok(s[i])
    else if -|s| <= i < 0 then Ok(s[|s| + i])
    else Err(IndexError)
  }

  /** `int(x)`: truncation toward zero. */
  function Truncated(x: real): int
  {
    if x >= 0.0 then x.Floor else -((-x).Floor)
  }

  /**
   * The value at a position of a sorted list: the element there when the
   * position is whole, otherwise the interpolation between its two
   * neighbours.
   */
  function AtPosition(s: seq<real>, index: real): Result<real, Raised>
    requires s != []
  {
    if index == index.Floor as real then PyIndex(s, index.Floor)
    else
      var lower := Truncated(index);
      var upper := lower + 1;
      if upper >= |s| then Ok(s[|s| - 1])
      else
        var weight := index - lower as real;
        var a := PyIndex(s, lower);
        var b := PyIndex(s, upper);
        if a.Err? then a
        else if b.Err? then b
        else Ok(Lerp(a.value, b.value, weight))
  }

  /** Linear interpolation from `a` to `b` at weight `w`. */
  function Lerp(a: real, b: real, w: real): real
  {
    a * (1.0 - w) + b * w
  }

  /** The position of percentile `p` in a sorted list of `n` elements. */
  function Position(p: real, n: int): real
  {
    (p / 100.0) * (n - 1) as real
  }

  /**
   * `calculate_percentile`: 0 for no values; otherwise the sorted value at
   * position `p / 100 * (n - 1)`.
   */
  function Percentile(values: seq<real>, p: real): (r: Result<real, Raised>)
    ensures values == [] ==> r == Ok(0.0)
    ensures values != [] && 0.0 <= p <= 100.0 ==> r.Ok? && Between(values, r.value)
  {
    if values == [] then Ok(0.0)
    else
      var s := Sorted(values);
      var index := Position(p, |s|);
      if 0.0 <= p <= 100.0 then
        PositionWithin(p, |s|);
        AtPositionBounds(s, index);
        SortedMembers(values, s);
        assert s[0] in values && s[|s| - 1] in values;
        AtPosition(s, index)
      else AtPosition(s, index)
  }

  /** A value lies between the least and the greatest of the values. */
  predicate Between(values: seq<real>, x: real)
  {
    (exists i | 0 <= i < |values| :: values[i] <= x) && (exists j | 0 <= j < |values| :: x <= values[j])
  }

  /** A sorted copy holds the same values, its first the least and its last the greatest. */
  lemma SortedMembers(values: seq<real>, s: seq<real>)
    requires SortedReals(s) && multiset(s) == multiset(values) && s != []
    ensures |s| == |values|
    ensures forall k | 0 <= k < |s| :: s[k] in values
    ensures forall i | 0 <= i < |values| :: s[0] <= values[i] <= s[|s| - 1]
  {
    assert |multiset(s)| == |multiset(values)|;
    forall k | 0 <= k < |s|
      ensures s[k] in values
    {
      assert s[k] in multiset(s);
    }
    forall i | 0 <= i < |values|
      ensures s[0] <= values[i] <= s[|s| - 1]
    {
      assert values[i] in multiset(values);
      assert values[i] in s;
    }
  }

  /** A weighted mean of two ordered values lies between them. */
  lemma Interpolation(a: real, b: real, w: real)
    requires a <= b && 0.0 < w < 1.0
    ensures a <= Lerp(a, b, w) <= b
  {
    assert a * (1.0 - w) + b * w - a == w * (b - a);
    assert b - (a * (1.0 - w) + b * w) == (1.0 - w) * (b - a);
    NonNegativeProduct(w, b - a);
    NonNegativeProduct(1.0 - w, b - a);
  }

  lemma NonNegativeProduct(x: real, y: real)
    requires 0.0 <= x && 0.0 <= y
    ensures 0.0 <= x * y
  {
  }

  /** The position of a percentile in [0, 100] lies within a list of `n` elements. */
  lemma PositionWithin(p: real, n: int)
    requires 0.0 <= p <= 100.0 && 1 <= n
    ensures 0.0 <= Position(p, n) <= (n - 1) as real
    ensures p == 0.0 ==> Position(p, n) == 0.0
    ensures p == 100.0 ==> Position(p, n) == (n - 1) as real
  {
    var q := p / 100.0;
    var m := (n - 1) as real;
    assert m - q * m == (1.0 - q) * m;
    NonNegativeProduct(q, m);
    NonNegativeProduct(1.0 - q, m);
  }

  /**
   * At a position within a sorted list the value exists and lies between
   * the first and the last element; position 0 gives the first and the
   * last position the last.
   */
  lemma AtPositionBounds(s: seq<real>, index: real)
    requires SortedReals(s) && s != [] && 0.0 <= index <= (|s| - 1) as real
    ensures AtPosition(s, index).Ok?
    ensures s[0] <= AtPosition(s, index).value <= s[|s| - 1]
    ensures index == 0.0 ==> AtPosition(s, index).value == s[0]
    ensures index == (|s| - 1) as real ==> AtPosition(s, index).value == s[|s| - 1]
  {
    var n := |s|;
    assert index.Floor as real <= index;
    if index == index.Floor as real {
      assert 0 <= index.Floor < n;
    } else {
      var lower := index.Floor;
      assert Truncated(index) == lower;
      assert 0 <= lower && lower + 1 < n;
      var w := index - lower as real;
      assert PyIndex(s, lower) == Ok(s[lower]) && PyIndex(s, lower + 1) == Ok(s[lower + 1]);
      assert AtPosition(s, index) == Ok(Lerp(s[lower], s[lower + 1], w));
      assert s[0] <= s[lower] <= s[lower + 1] <= s[n - 1];
      Interpolation(s[lower], s[lower + 1], w);
    }
  }

  /**
   * For a percentile in [0, 100] of some values the result exists and lies
   * between their minimum and maximum; 0 gives the minimum and 100 the
   * maximum.
   */
  lemma PercentileBounds(values: seq<real>, p: real)
    requires values != [] && 0.0 <= p <= 100.0
    ensures Percentile(values, p).Ok?
    ensures Between(values, Percentile(values, p).value)
    ensures p == 0.0 ==> forall i | 0 <= i < |values| :: Percentile(values, p).value <= values[i]
    ensures p == 100.0 ==> forall i | 0 <= i < |values| :: values[i] <= Percentile(values, p).value
  {
    var s := Sorted(values);
    var index := Position(p, |s|);
    assert Percentile(values, p) == AtPosition(s, index);
    PositionWithin(p, |s|);
    AtPositionBounds(s, index);
    SortedMembers(values, s);
    assert s[0] in values && s[|s| - 1] in values;
  }

  // ---------------------------------------------------------------------
  // `retry_operation`
  // ---------------------------------------------------------------------

  function Pow2(k: nat): nat
  {
    if k == 0 then 1 else 2 * Pow2(k - 1)
  }

  /** The sleep after a failed attempt: `delaySeconds * 2^attempt`. */
  function Sleep(delaySeconds: real, attempt: nat): real
  {
    delaySeconds * Pow2(attempt) as real
  }

  /** Each sleep is twice the one before. */
  lemma SleepDoubles(delaySeconds: real, attempt: nat)
    requires 0 < attempt
    ensures Sleep(delaySeconds, attempt) == 2.0 * Sleep(delaySeconds, attempt - 1)
  {
    var x := Pow2(attempt - 1) as real;
    assert Pow2(attempt) as real == 2.0 * x;
    assert delaySeconds * (2.0 * x) == 2.0 * (delaySeconds * x);
  }

  /** The first `n` back-off sleeps, for attempts 0 to n - 1. */
  function Backoffs(delaySeconds: real, n: nat): seq<real>
  {
    if n == 0 then [] else Backoffs(delaySeconds, n - 1) + [Sleep(delaySeconds, n - 1)]
  }

  /** The back-off doubles at every attempt, starting from the delay itself. */
  lemma {:induction false} BackoffsDouble(delaySeconds: real, n: nat)
    ensures |Backoffs(delaySeconds, n)| == n
    ensures forall k | 0 <= k < n :: Backoffs(delaySeconds, n)[k] == Sleep(delaySeconds, k)
    ensures 0 < n ==> Backoffs(delaySeconds, n)[0] == delaySeconds
    ensures forall k | 0 < k < n :: Backoffs(delaySeconds, n)[k] == 2.0 * Backoffs(delaySeconds, n)[k - 1]
  {
    if n > 0 {
      BackoffsDouble(delaySeconds, n - 1);
      var b := Backoffs(delaySeconds, n);
      assert forall k | 0 <= k < n - 1 :: b[k] == Backoffs(delaySeconds, n - 1)[k];
      forall k | 0 < k < n
        ensures b[k] == 2.0 * b[k - 1]
      {
        SleepDoubles(delaySeconds, k);
      }
    }
  }

  /**
   * `retry_operation`, where `outcomes[k]` is what the operation returns or
   * raises on its call number `k`.  The operation is called until it
   * returns, at most `maxAttempts` times; after each failure but the last
   * the retry sleeps `delaySeconds * 2^attempt` (the sleeps are returned).
   * If every call raises, the last exception is raised again; with no
   * attempt at all, `raise None` fails.
   */
  method RetryOperation<T>(outcomes: seq<Result<T, string>>, maxAttempts: int, delaySeconds: real)
    returns (r: Result<T, Raised>, calls: nat, sleeps: seq<real>)
    requires maxAttempts <= |outcomes|
    ensures calls <= MaxInt(0, maxAttempts)
    ensures forall k | 0 <= k < calls - 1 :: outcomes[k].Err?
    ensures r.Ok? <==> exists k | 0 <= k < maxAttempts :: outcomes[k].Ok?
    ensures r.Ok? ==> 1 <= calls && outcomes[calls - 1] == Ok(r.value)
    ensures r.Err? && 1 <= maxAttempts ==>
      calls == maxAttempts && r.error == OperationError(outcomes[maxAttempts - 1].error)
    ensures maxAttempts <= 0 ==> r == Err(RaisedNone) && calls == 0
    ensures sleeps == Backoffs(delaySeconds, MaxInt(0, calls - 1))
  {
    var last: Option<string> := None;
    sleeps := [];
    calls := 0;
    var attempt := 0;
    while attempt < maxAttempts
      invariant 0 <= attempt <= |outcomes| && attempt <= MaxInt(0, maxAttempts) && calls == attempt
      invariant forall k | 0 <= k < attempt :: outcomes[k].Err?
      invariant last == if attempt == 0 then None else Some(outcomes[attempt - 1].error)
      invariant |sleeps| == (if attempt < maxAttempts || attempt == 0 then attempt else attempt - 1)
      invariant sleeps == Backoffs(delaySeconds, |sleeps|)
    {
      calls := calls + 1;
      var o := outcomes[attempt];
      if o.Ok? {
        assert outcomes[calls - 1] == o && calls <= maxAttempts;
        return Ok(o.value), calls, sleeps;
      }
      last := Some(o.error);
      if attempt < maxAttempts - 1 {
        sleeps := sleeps + [Sleep(delaySeconds, attempt)];
      }
      attempt := attempt + 1;
    }
    assert forall k | 0 <= k < maxAttempts :: outcomes[k].Err?;
    if last.None? {
      return Err(RaisedNone), calls, sleeps;
    }
    r := Err(OperationError(last.value));
  }

  // ---------------------------------------------------------------------
  // `truncate_string`
  // ---------------------------------------------------------------------

  /** `s[:stop]`: a negative stop counts from the end. */
  function PrefixTo(s: string, stop: int): string
  {
    if stop >= 0 then s[..MinInt(stop, |s|)] else s[..MaxInt(0, |s| + stop)]
  }

  /** `truncate_string` as written: `text[:max_length - 3] + "..."` once the text is too long. */
  function TruncateAsWritten(text: string, maxLength: int): (r: string)
    ensures |text| <= maxLength ==> r == text
    ensures |text| > maxLength ==> |r| >= 3 && r[|r| - 3..] == "..." && r[..|r| - 3] <= text
    ensures |text| > maxLength && maxLength >= 3 ==> |r| == maxLength
    ensures |text| > maxLength && maxLength < 3 ==> |r| > maxLength
  {
    if |text| <= maxLength then text else PrefixTo(text, maxLength - 3) + "..."
  }

  /**
   * Below a limit of 3 the negative slice keeps most of the text: a
   * 5-character text truncated to 2 comes back with 7 characters.
   */
  lemma TruncateOverflows()
    ensures TruncateAsWritten("hello", 2) == "hell..."
    ensures |TruncateAsWritten("hello", 2)| > 2
  {
    assert PrefixTo("hello", -1) == "hell";
  }

  /**
   * `truncate_string` as evidently intended: a text within the limit is
   * returned unchanged; a longer one is cut to exactly the limit, ending in
   * "..." when the limit leaves room for it.  From a limit of 3 on it agrees
   * with the function as written.
   */
  function Truncate(text: string, maxLength: int): (r: string)
    ensures |text| <= maxLength ==> r == text
    ensures |text| > maxLength ==> |r| == MaxInt(0, maxLength) && r[..|r| - MinInt(3, |r|)] <= text
    ensures |text| > maxLength && maxLength >= 3 ==> r[maxLength - 3..] == "..."
    ensures maxLength >= 3 ==> r == TruncateAsWritten(text, maxLength)
  {
    if |text| <= maxLength then text
    else if maxLength >= 3 then text[..maxLength - 3] + "..."
    else text[..MaxInt(0, maxLength)]
  }
}
