/**
 * The record and header normaliser of the taxi-trip replay: column names are
 * stripped, lower-cased and mapped through a fixed alias table; a CSV line is
 * zipped with the header into a map; and the string values of a record
 * are re-typed by the class of their key.
 */
module DataNormalizer {
  import opened Wrappers
  import opened StringUtils
  import JavaLong

  /** The pairs the alias table `headers` is built from: old column names of
      the trip data and the current names they stand for. */
  const AliasPairs: seq<(string, string)> := [
    ("ratecodeid", "rate_code"),
    ("vendorid", "vendor_id"),
    ("dolocationid", "dropoff_location_id"),
    ("pulocationid", "pickup_location_id"),
    ("tpep_dropoff_datetime", "dropoff_datetime"),
    ("tpep_pickup_datetime", "pickup_datetime"),
    ("lpep_dropoff_datetime", "dropoff_datetime"),
    ("lpep_pickup_datetime", "pickup_datetime")
  ]

  /** `headers.size()`: the keys of the pairs are distinct (`AliasKeysDistinct`),
      so the table has one entry per pair. */
  const AliasCount: nat := |AliasPairs|

  /** Keys whose values must parse as `yyyy-MM-dd HH:mm:ss` and are kept as text. */
  const Datetimes: set<string> := {"dropoff_datetime", "pickup_datetime"}

  /** Keys re-typed as `double`. The table lists `dropoff_latitude` and
      `pickup_longitude` twice each, so it has two members, not four. */
  const Doubles: set<string> := {"dropoff_latitude", "pickup_longitude", "dropoff_latitude", "pickup_longitude"}

  /** Keys re-typed as `long`. */
  const Longs: set<string> := {"passenger_count"}

  /** The one key converted from miles to metres. */
  const TripDistance: string := "trip_distance"

  /** The value a table of pairs holds for `k`. */
  function Lookup(pairs: seq<(string, string)>, k: string): Option<string> {
    if pairs == [] then None
    else if pairs[0].0 == k then Some(pairs[0].1)
    else Lookup(pairs[1..], k)
  }

  lemma {:induction false} LookupFound(pairs: seq<(string, string)>, k: string)
    ensures Lookup(pairs, k).Some? <==> exists i :: 0 <= i < |pairs| && pairs[i].0 == k
    ensures Lookup(pairs, k).Some? ==> exists i :: 0 <= i < |pairs| && pairs[i] == (k, Lookup(pairs, k).value)
  {
    if pairs != [] {
      LookupFound(pairs[1..], k);
      if pairs[0].0 != k {
        forall i | 1 <= i < |pairs| ensures pairs[i] == pairs[1..][i - 1] {}
      }
    }
  }

  /** `headers.get(k)`. */
  function Alias(k: string): Option<string> {
    Lookup(AliasPairs, k)
  }

  /** No column name is listed twice, so `headers` has `AliasCount` (eight) entries. */
  lemma AliasKeysDistinct()
    ensures AliasCount == 8
    ensures forall i, j :: 0 <= i < j < |AliasPairs| ==> AliasPairs[i].0 != AliasPairs[j].0
  {
    assert "dolocationid"[0] != "pulocationid"[0];
    assert "tpep_dropoff_datetime"[0] != "lpep_dropoff_datetime"[0];
    assert "tpep_pickup_datetime"[0] != "lpep_pickup_datetime"[0];
  }

  /** Lower-case letters and underscores only. */
  predicate IsSnakeCase(s: string) {
    forall i :: 0 <= i < |s| ==> 'a' <= s[i] <= 'z' || s[i] == '_'
  }

  /** A lower-case snake-case name is stripped and lower-case. */
  lemma SnakeCaseNormal(s: string)
    requires IsSnakeCase(s)
    ensures IsStripped(s) && IsLowerCase(s)
  {
  }

  /** The alias keys have lengths 8, 10, 12, 20 and 21. */
  lemma AliasKeyLengths()
    ensures forall i :: 0 <= i < |AliasPairs| ==> |AliasPairs[i].0| in {8, 10, 12, 20, 21}
  {
  }

  lemma ShortTargetsSnakeCase()
    ensures IsSnakeCase("rate_code") && IsSnakeCase("vendor_id")
  {
  }

  lemma LocationTargetsSnakeCase()
    ensures IsSnakeCase("dropoff_location_id") && IsSnakeCase("pickup_location_id")
  {
  }

  lemma DatetimeTargetsSnakeCase()
    ensures IsSnakeCase("dropoff_datetime") && IsSnakeCase("pickup_datetime")
  {
  }

  /** Every alias target is snake case. */
  lemma AliasTargetsSnakeCase()
    ensures forall i :: 0 <= i < |AliasPairs| ==> IsSnakeCase(AliasPairs[i].1)
  {
    ShortTargetsSnakeCase();
    LocationTargetsSnakeCase();
    DatetimeTargetsSnakeCase();
  }

  /** No alias target is an alias key: the targets have lengths 9, 15, 16, 18
      and 19, which no key has. */
  lemma AliasTargetsNotKeys()
    ensures forall i :: 0 <= i < |AliasPairs| ==> Alias(AliasPairs[i].1).None?
  {
    AliasKeyLengths();
    forall i | 0 <= i < |AliasPairs| ensures Alias(AliasPairs[i].1).None? {
      LookupFound(AliasPairs, AliasPairs[i].1);
      assert |AliasPairs[i].1| in {9, 15, 16, 18, 19};
    }
  }

  /** Every alias target is already normal: stripped, lower-case and not itself
      an alias key, so the table never needs to be applied twice. */
  lemma AliasTargetsNormal()
    ensures forall i :: 0 <= i < |AliasPairs| ==>
      var v := AliasPairs[i].1; IsStripped(v) && IsLowerCase(v) && Alias(v).None?
  {
    AliasTargetsSnakeCase();
    AliasTargetsNotKeys();
    forall i | 0 <= i < |AliasPairs|
      ensures var v := AliasPairs[i].1; IsStripped(v) && IsLowerCase(v)
    {
      SnakeCaseNormal(AliasPairs[i].1);
    }
  }

  /** The name `headers` maps `k` to, or `k` itself. */
  function Resolve(k: string): string {
    match Alias(k)
    case Some(v) => v
    case None => k
  }

  /**
   * `normalizeHeader(String)`: the stripped, lower-cased name, replaced by its
   * alias target when it is one of the alias keys.
   */
  function NormalizeHeader(name: string): string {
    Resolve(LowerCase(Strip(name)))
  }

  /** The result is the alias target of the stripped, lower-cased name when
      that name is an alias key and that name itself otherwise; either way it is
      in normal form: stripped, lower-case and not an alias key. */
  lemma NormalizeHeaderNormalForm(name: string)
    ensures var k := LowerCase(Strip(name));
      && (Alias(k).Some? ==> exists i :: 0 <= i < |AliasPairs| && AliasPairs[i] == (k, NormalizeHeader(name)))
      && (Alias(k).None? ==> NormalizeHeader(name) == k && forall i :: 0 <= i < |AliasPairs| ==> AliasPairs[i].0 != k)
    ensures var r := NormalizeHeader(name);
      IsStripped(r) && IsLowerCase(r) && Alias(r).None?
  {
    var k := LowerCase(Strip(name));
    LowerCaseKeepsStripped(Strip(name));
    LowerCaseIsLower(Strip(name));
    LookupFound(AliasPairs, k);
    AliasTargetsNormal();
  }

  /** Normalising a normalised name changes nothing. */
  lemma NormalizeHeaderIdempotent(name: string)
    ensures NormalizeHeader(NormalizeHeader(name)) == NormalizeHeader(name)
  {
    var r := NormalizeHeader(name);
    NormalizeHeaderNormalForm(name);
    StripStripped(r);
    LowerCaseIsLower(r);
  }

  /** Surrounding white space and letter case do not matter. */
  lemma NormalizeHeaderInsensitive(pre: string, name: string, post: string)
    requires AllWhitespace(pre) && AllWhitespace(post)
    ensures NormalizeHeader(pre + name + post) == NormalizeHeader(name)
    ensures NormalizeHeader(LowerCase(name)) == NormalizeHeader(name)
  {
    StripPadded(pre, name, post);
    StripLower(name);
    LowerCaseIsLower(Strip(name));
    assert LowerCase(Strip(LowerCase(name))) == LowerCase(Strip(name));
  }

  /**
   * `normalizeHeader(List)`: rewrites every element of the list in place and
   * returns the very list it was given.
   */
  method NormalizeHeaders(header: array<string>) returns (r: array<string>)
    modifies header
    ensures r == header
    ensures forall i :: 0 <= i < header.Length ==> header[i] == NormalizeHeader(old(header[i]))
  {
    ghost var s := header[..];
    var i := 0;
    while i < header.Length
      invariant 0 <= i <= header.Length
      invariant forall j :: 0 <= j < i ==> header[j] == NormalizeHeader(s[j])
      invariant forall j :: i <= j < header.Length ==> header[j] == s[j]
    {
      header[i] := NormalizeHeader(header[i]);
      i := i + 1;
    }
    r := header;
  }

  /** Running the list overload twice gives what running it once gives. */
  lemma NormalizeHeadersIdempotent(header: seq<string>)
    ensures forall i :: 0 <= i < |header| ==>
      NormalizeHeader(NormalizeHeader(header[i])) == NormalizeHeader(header[i])
  {
    forall i | 0 <= i < |header| {
      NormalizeHeaderIdempotent(header[i]);
    }
  }

  // ---------------------------------------------------------------------------
  // list2map

  /** The value of a record field: Java's `Object` restricted to what the
      normaliser stores (a `String`, a `Long`, a `Double` as its IEEE bits, or `null`). */
  datatype Value = Str(s: string) | LongValue(n: JavaLong.Long) | DoubleValue(bits: bv64) | Null

  /** `(double)0`, i.e. +0.0. */
  const PositiveZero: bv64 := 0

  /** `header.get(i)` beyond the end of the list. */
  datatype IndexOutOfBounds = IndexOutOfBounds(index: nat, size: nat)

  /** Cell `i` of a CSV row, or `""` when the row is shorter. */
  function Cell(record: seq<string>, i: nat): string {
    if i < |record| then record[i] else ""
  }

  /** No later column among the first `n` carries the same name as column `i`. */
  predicate LastOccurrence(header: seq<string>, i: nat, n: nat)
    requires i < n <= |header|
  {
    forall j :: i < j < n ==> header[j] != header[i]
  }

  /**
   * `list2map`: puts `header[i] -> record[i]` (or `""`) into a fresh map
   * for every `i` below the size of the alias table, not of the header, so a
   * header with fewer than eight columns throws and columns from the ninth on
   * are ignored; a later duplicate column name overwrites an earlier one.
   */
  method List2Map(header: seq<string>, record: seq<string>) returns (r: Result<map<string, Value>, IndexOutOfBounds>)
    ensures r.Failure? <==> |header| < AliasCount
    ensures r.Failure? ==> r.error == IndexOutOfBounds(|header|, |header|)
    ensures r.Success? ==> r.value.Keys == set i | 0 <= i < AliasCount :: header[i]
    ensures r.Success? ==> forall i :: 0 <= i < AliasCount && LastOccurrence(header, i, AliasCount) ==>
      r.value[header[i]] == Str(Cell(record, i))
  {
    var data: map<string, Value> := map[];
    var i := 0;
    while i < AliasCount
      invariant 0 <= i <= AliasCount && i <= |header|
      invariant data.Keys == set j | 0 <= j < i :: header[j]
      invariant forall j :: 0 <= j < i && LastOccurrence(header, j, i) ==> data[header[j]] == Str(Cell(record, j))
    {
      if i >= |header| {
        return Failure(IndexOutOfBounds(i, |header|));
      }
      var h := header[i];
      var v := if i < |record| then record[i] else "";
      data := data[h := Str(v)];
      i := i + 1;
    }
    return Success(data);
  }

  // ---------------------------------------------------------------------------
  // normalizeRecord

  /** The library parsers the normaliser calls, which are not part of this model:
      `Double.parseDouble` (partial), `mile2meter` (a double to a long) and
      whether `FastDateFormat("yyyy-MM-dd HH:mm:ss").parse` accepts a string
      (it throws on `null`). */
  datatype Parsers = Parsers(
    parseDouble: string -> Option<bv64>,
    mileToMeter: bv64 -> JavaLong.Long,
    parseDate: string -> bool)

  /** What `normalizeRecord` throws: `IllegalArgumentException("Invalid value k: v")`,
      or a `ClassCastException` when a value is not a `String`. */
  datatype NormalizeError = InvalidValue(key: string, value: Value) | NotAString(key: string)

  /** Keys whose value `normalizeRecord` replaces by a number. */
  predicate Converted(k: string) {
    k == TripDistance || k in Doubles || k in Longs
  }

  /** Keys whose value `normalizeRecord` inspects at all. */
  predicate Typed(k: string) {
    k in Datetimes || Converted(k)
  }

  /** The duplicates in `doubles` collapse: the set has two members, and the
      pick-up latitude and the drop-off longitude are not converted at all. */
  lemma DoublesQuirk()
    ensures |Doubles| == 2
    ensures !Converted("pickup_latitude") && !Converted("dropoff_longitude")
  {
    assert Doubles == {"dropoff_latitude", "pickup_longitude"};
    assert "dropoff_latitude"[0] != "pickup_longitude"[0];
  }

  /** What the `(String)` cast lets through: a string or `null`. */
  predicate IsText(v: Value) {
    v.Str? || v.Null?
  }

  /** `StringUtils.isEmpty`: `null` or the empty string. */
  predicate IsEmpty(v: Value) {
    v.Null? || v == Str("")
  }

  /** The body of the loop in `normalizeRecord` for one entry `k -> v`. */
  function NormalizeEntry(p: Parsers, k: string, v: Value): (r: Result<Value, NormalizeError>)
    ensures !IsText(v) ==> r == Failure(NotAString(k))
    ensures IsText(v) && r.Failure? ==> r.error == InvalidValue(k, v)
    ensures IsText(v) && !Typed(k) ==> r == Success(v)
    ensures IsText(v) && k in Datetimes ==> (r.Success? <==> v.Str? && p.parseDate(v.s)) && (r.Success? ==> r.value == v)
    ensures IsEmpty(v) && (k == TripDistance || k in Longs) ==> r == Success(LongValue(0))
    ensures IsEmpty(v) && k in Doubles ==> r == Success(DoubleValue(PositiveZero))
    ensures v.Str? && v.s != "" && k in Longs ==>
      && (r.Success? <==> JavaLong.ParseLong(v.s).Some?)
      && (r.Success? ==> r.value == LongValue(JavaLong.ParseLong(v.s).value))
    ensures v.Str? && v.s != "" && k in Doubles ==>
      && (r.Success? <==> p.parseDouble(v.s).Some?)
      && (r.Success? ==> r.value == DoubleValue(p.parseDouble(v.s).value))
    ensures v.Str? && v.s != "" && k == TripDistance ==>
      && (r.Success? <==> p.parseDouble(v.s).Some?)
      && (r.Success? ==> r.value == LongValue(p.mileToMeter(p.parseDouble(v.s).value)))
    ensures r.Success? && Converted(k) ==> r.value.LongValue? || r.value.DoubleValue?
  {
    if !IsText(v) then Failure(NotAString(k))
    else if k in Datetimes then
      if v.Str? && p.parseDate(v.s) then Success(v) else Failure(InvalidValue(k, v))
    else if k == TripDistance then
      if IsEmpty(v) then Success(LongValue(0))
      else match p.parseDouble(v.s)
        case Some(d) => Success(LongValue(p.mileToMeter(d)))
        case None => Failure(InvalidValue(k, v))
    else if k in Doubles then
      if IsEmpty(v) then Success(DoubleValue(PositiveZero))
      else match p.parseDouble(v.s)
        case Some(d) => Success(DoubleValue(d))
        case None => Failure(InvalidValue(k, v))
    else if k in Longs then
      if IsEmpty(v) then Success(LongValue(0))
      else match JavaLong.ParseLong(v.s)
        case Some(n) => Success(LongValue(n))
        case None => Failure(InvalidValue(k, v))
    else
      Success(v)
  }

  /** The fields of a record after the normaliser ran, and the exception it threw, if any. */
  datatype Normalized = Normalized(fields: map<string, Value>, failure: Option<NormalizeError>)

  predicate Distinct(order: seq<string>) {
    forall i, j :: 0 <= i < j < |order| ==> order[i] != order[j]
  }

  /** `order` is an iteration order of the entry set of `fields`. */
  predicate IsIterationOrder(order: seq<string>, fields: map<string, Value>) {
    && Distinct(order)
    && (forall k :: k in order ==> k in fields)
    && (forall k :: k in fields ==> k in order)
  }

  /**
   * `normalizeRecord` as a function: the entries visited in `order`, each one
   * re-typed in place, until the first one that throws; entries from the failing
   * one on keep their old value.
   */
  function NormalizeFields(p: Parsers, fields: map<string, Value>, order: seq<string>): Normalized
    requires forall k :: k in order ==> k in fields
    decreases |order|
  {
    if order == [] then Normalized(fields, None)
    else
      var k := order[0];
      match NormalizeEntry(p, k, fields[k])
      case Failure(e) => Normalized(fields, Some(e))
      case Success(v) => NormalizeFields(p, fields[k := v], order[1..])
  }

  /** A Java `Map<String, Object>` that `normalizeRecord` updates entry by entry. */
  class Record {
    var fields: map<string, Value>

    constructor (fields: map<string, Value>)
      ensures this.fields == fields
    {
      this.fields := fields;
    }
  }

  /**
   * `normalizeRecord`: walks the entry set in `order` and replaces each value
   * by its re-typed form; the first failure is returned (thrown) and leaves the
   * entries already visited converted.
   */
  method NormalizeRecord(p: Parsers, record: Record, order: seq<string>) returns (failure: Option<NormalizeError>)
    requires IsIterationOrder(order, record.fields)
    modifies record
    ensures record.fields == NormalizeFields(p, old(record.fields), order).fields
    ensures failure == NormalizeFields(p, old(record.fields), order).failure
  {
    var i := 0;
    while i < |order|
      invariant 0 <= i <= |order|
      invariant forall k :: k in order[i..] ==> k in record.fields
      invariant NormalizeFields(p, record.fields, order[i..]) == NormalizeFields(p, old(record.fields), order)
    {
      var k := order[i];
      assert order[i..][1..] == order[i + 1..];
      var r := NormalizeEntry(p, k, record.fields[k]);
      if r.Failure? {
        return Some(r.error);
      }
      record.fields := record.fields[k := r.value];
      i := i + 1;
    }
    failure := None;
  }

  /** The key set never changes, whether the normaliser succeeds or throws. */
  lemma {:induction false} NormalizeKeepsKeys(p: Parsers, fields: map<string, Value>, order: seq<string>)
    requires forall k :: k in order ==> k in fields
    ensures NormalizeFields(p, fields, order).fields.Keys == fields.Keys
  {
    if order != [] {
      var k := order[0];
      var e := NormalizeEntry(p, k, fields[k]);
      if e.Success? {
        NormalizeKeepsKeys(p, fields[k := e.value], order[1..]);
      }
    }
  }

  /** Values under keys that are not converted (date-time keys and untyped keys,
      `pickup_latitude` and `dropoff_longitude` among them) stay as they were. */
  lemma {:induction false} NormalizeKeepsUnconverted(p: Parsers, fields: map<string, Value>, order: seq<string>, k: string)
    requires forall k :: k in order ==> k in fields
    requires k in fields && (!Converted(k) || k !in order)
    ensures k in NormalizeFields(p, fields, order).fields
    ensures NormalizeFields(p, fields, order).fields[k] == fields[k]
  {
    NormalizeKeepsKeys(p, fields, order);
    if order != [] {
      var h := order[0];
      var e := NormalizeEntry(p, h, fields[h]);
      if e.Success? {
        assert h != k ==> fields[h := e.value][k] == fields[k];
        NormalizeKeepsUnconverted(p, fields[h := e.value], order[1..], k);
      }
    }
  }

  /** The entry `order[i]` as the normaliser would convert it from `fields`. */
  function EntryAt(p: Parsers, fields: map<string, Value>, order: seq<string>, i: nat): Result<Value, NormalizeError>
    requires i < |order| && order[i] in fields
  {
    NormalizeEntry(p, order[i], fields[order[i]])
  }

  /** After converting the first entry, the remaining entries see the same
      inputs as they did in the original record. */
  lemma ShiftEntries(p: Parsers, fields: map<string, Value>, order: seq<string>, v: Value, fields': map<string, Value>, rest: seq<string>)
    requires forall k :: k in order ==> k in fields
    requires Distinct(order) && order != [] && rest == order[1..]
    requires fields' == fields[order[0] := v]
    ensures forall k :: k in rest ==> k in fields'
    ensures Distinct(rest)
    ensures forall j :: 0 <= j < |rest| ==> EntryAt(p, fields', rest, j) == EntryAt(p, fields, order, j + 1)
  {
    assert forall j :: 0 <= j < |rest| ==> rest[j] == order[j + 1] && rest[j] != order[0];
  }

  /**
   * Exactly the records whose every entry converts are normalised without an
   * exception, and then each entry holds its converted value.
   */
  lemma {:induction false} NormalizeSuccess(p: Parsers, fields: map<string, Value>, order: seq<string>)
    requires forall k :: k in order ==> k in fields
    requires Distinct(order)
    ensures var r := NormalizeFields(p, fields, order);
      && r.fields.Keys == fields.Keys
      && (r.failure.None? <==> forall i :: 0 <= i < |order| ==> EntryAt(p, fields, order, i).Success?)
      && (r.failure.None? ==> forall i :: 0 <= i < |order| ==> r.fields[order[i]] == EntryAt(p, fields, order, i).value)
  {
    var r := NormalizeFields(p, fields, order);
    NormalizeKeepsKeys(p, fields, order);
    if order != [] {
      var k := order[0];
      var e := NormalizeEntry(p, k, fields[k]);
      if e.Success? {
        var fields' := fields[k := e.value];
        var rest := order[1..];
        ShiftEntries(p, fields, order, e.value, fields', rest);
        NormalizeSuccess(p, fields', rest);
        NormalizeKeepsUnconverted(p, fields', rest, k);
        assert r == NormalizeFields(p, fields', rest);
        if r.failure.None? {
          forall i | 0 <= i < |order|
            ensures EntryAt(p, fields, order, i).Success?
            ensures r.fields[order[i]] == EntryAt(p, fields, order, i).value
          {
            if i > 0 {
              assert EntryAt(p, fields', rest, i - 1).Success?;
            }
          }
        } else {
          var j :| 0 <= j < |rest| && !EntryAt(p, fields', rest, j).Success?;
          assert !EntryAt(p, fields, order, j + 1).Success?;
        }
      } else {
        assert !EntryAt(p, fields, order, 0).Success?;
      }
    }
  }

  /**
   * When the normaliser throws, the exception is that of the first failing
   * entry in iteration order, carrying its key and value; the entries before it
   * are converted, the others keep their old values.
   */
  lemma {:induction false} NormalizeFailure(p: Parsers, fields: map<string, Value>, order: seq<string>)
    requires forall k :: k in order ==> k in fields
    requires Distinct(order)
    ensures var r := NormalizeFields(p, fields, order);
      r.failure.Some? ==> exists i :: 0 <= i < |order| && FirstFailure(p, fields, order, i, r)
  {
    var r := NormalizeFields(p, fields, order);
    if order != [] {
      var k := order[0];
      var e := NormalizeEntry(p, k, fields[k]);
      if e.Failure? {
        assert FirstFailure(p, fields, order, 0, r);
      } else {
        var fields' := fields[k := e.value];
        var rest := order[1..];
        ShiftEntries(p, fields, order, e.value, fields', rest);
        NormalizeFailure(p, fields', rest);
        assert r == NormalizeFields(p, fields', rest);
        if r.failure.Some? {
          var i :| 0 <= i < |rest| && FirstFailure(p, fields', rest, i, r);
          NormalizeKeepsUnconverted(p, fields', rest, k);
          assert FirstFailure(p, fields, order, i + 1, r);
        }
      }
    }
  }

  /** Entry `i` is the first to fail; `r` holds the error it threw, the converted
      values before it and the original values from it on. */
  predicate FirstFailure(p: Parsers, fields: map<string, Value>, order: seq<string>, i: nat, r: Normalized)
    requires i < |order| && forall k :: k in order ==> k in fields
  {
    && EntryAt(p, fields, order, i).Failure?
    && r.failure == Some(EntryAt(p, fields, order, i).error)
    && (forall j :: 0 <= j < i ==>
          EntryAt(p, fields, order, j).Success? && order[j] in r.fields && r.fields[order[j]] == EntryAt(p, fields, order, j).value)
    && (forall j :: i <= j < |order| ==> order[j] in r.fields && r.fields[order[j]] == fields[order[j]])
  }
}
