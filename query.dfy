/**
 * The record query pipeline of the data view (`getCurrentRecords`): global search, column
 * filters, column sorts and column searches, applied in that order to the first sheet's
 * records. Each stage has a specification function and a method with the source's loops.
 */
module Query {
  import opened Wrappers
  import opened Js
  import opened Seqs
  import opened Sorting
  import opened Dicts
  import opened Api

  datatype Direction = Asc | Desc

  /** The TypeErrors the pipeline can throw. */
  datatype QueryError =
    | NoSheet                                  // `sheets[0]` of an empty workbook
    | HeaderGap(index: nat)                    // `headers[h].name` on a hole of the header array
    | NotFilterable(key: string, value: Value) // `indexOf` on a value that is neither number nor string
    | NotSearchable(key: string, value: Value) // `toLowerCase` on a value that is not a string

  /** Every key of the iteration order has an entry, as in a JavaScript object. */
  ghost predicate Keyed<V>(keys: seq<string>, entries: map<string, V>) {
    forall k :: k in keys ==> k in entries
  }

  // ---------------------------------------------------------------------------
  // Stage 1: global search

  /** The value under `key` is a string containing `needle`, ignoring case. */
  predicate GlobalHit(r: Record, key: string, needle: string) {
    Field(r, key).Str? && Contains(Lower(Field(r, key).s), Lower(needle))
  }

  /** Some header (all of them present) has a string value containing the term. */
  ghost predicate MatchesSomeHeader(r: Record, headers: seq<Option<Header>>, term: string) {
    exists i :: 0 <= i < |headers| && headers[i].Some? && GlobalHit(r, KeyOf(headers[i].value), term)
  }

  /**
   * The search loop over headers from index `h`: true at the first hit before any hole, false
   * when every header is present and none hits, and a throw at the first hole reached with no
   * hit before it.
   */
  function ScanFrom(r: Record, headers: seq<Option<Header>>, needle: string, h: nat): (res: Result<bool, QueryError>)
    requires h <= |headers|
    ensures res == Ok(true) ==> exists i :: h <= i < |headers| && headers[i].Some?
                                            && GlobalHit(r, KeyOf(headers[i].value), needle)
    ensures res == Ok(false) ==> forall i :: h <= i < |headers| ==>
                                   headers[i].Some? && !GlobalHit(r, KeyOf(headers[i].value), needle)
    ensures res.Err? ==> exists i :: h <= i < |headers| && headers[i].None? && res.error == HeaderGap(i)
    ensures res == Ok(true) <==> exists i :: h <= i < |headers| && headers[i].Some?
                                            && GlobalHit(r, KeyOf(headers[i].value), needle)
                                            && forall j :: h <= j < i ==> headers[j].Some?
    ensures res.Err? ==> && res.error.HeaderGap?
                         && h <= res.error.index < |headers| && headers[res.error.index].None?
                         && forall j :: h <= j < res.error.index ==>
                              headers[j].Some? && !GlobalHit(r, KeyOf(headers[j].value), needle)
    decreases |headers| - h
  {
    if h == |headers| then Ok(false)
    else
      match headers[h]
      case None => Err(HeaderGap(h))
      case Some(hd) => if GlobalHit(r, KeyOf(hd), needle) then Ok(true) else ScanFrom(r, headers, needle, h + 1)
  }

  function GlobalKeep(headers: seq<Option<Header>>, term: string): Record -> Result<bool, QueryError> {
    r => if term == "" then Ok(true) else ScanFrom(r, headers, term, 0)
  }

  function GlobalSearch(records: seq<Record>, headers: seq<Option<Header>>, term: string): Result<seq<Record>, QueryError> {
    FilterOk(records, GlobalKeep(headers, term))
  }

  /**
   * A record survives the global search iff the term is empty or some header's value is a
   * string containing it, ignoring case; with no holes in the header array it never throws.
   */
  lemma GlobalSearchMeaning(records: seq<Record>, headers: seq<Option<Header>>, term: string)
    ensures var res := GlobalSearch(records, headers, term);
            res.Ok? ==> forall r :: r in res.value <==>
                          r in records && (term == "" || MatchesSomeHeader(r, headers, term))
    ensures (forall i :: 0 <= i < |headers| ==> headers[i].Some?) ==> GlobalSearch(records, headers, term).Ok?
    ensures GlobalSearch(records, headers, "") == Ok(records)
  {
    var f := GlobalKeep(headers, term);
    forall r | term != "" && f(r).Ok?
      ensures f(r) == Ok(true) <==> MatchesSomeHeader(r, headers, term)
    {
      var res := ScanFrom(r, headers, term, 0);
      assert f(r) == res;
      if MatchesSomeHeader(r, headers, term) {
        var i :| 0 <= i < |headers| && headers[i].Some? && GlobalHit(r, KeyOf(headers[i].value), term);
        assert res.value;
      }
      if res == Ok(true) {
        assert MatchesSomeHeader(r, headers, term);
      }
    }
    if forall i :: 0 <= i < |headers| ==> headers[i].Some? {
      forall r ensures f(r).Ok? {
        if term != "" {
          assert f(r) == ScanFrom(r, headers, term, 0);
        }
      }
    }
  }

  /** The callback's loop over headers, with its `isMatching` flag and `break`. */
  method ScanHeaders(r: Record, headers: seq<Option<Header>>, needle: string) returns (res: Result<bool, QueryError>)
    ensures res == ScanFrom(r, headers, needle, 0)
  {
    var isMatching := false;
    var h := 0;
    while h < |headers|
      invariant 0 <= h <= |headers|
      invariant !isMatching
      invariant ScanFrom(r, headers, needle, h) == ScanFrom(r, headers, needle, 0)
    {
      match headers[h] {
        case None =>
          return Err(HeaderGap(h));
        case Some(hd) =>
          var value := Field(r, KeyOf(hd));
          if value.Str? {
            var haystack := Lower(value.s);
            if Contains(haystack, Lower(needle)) {
              isMatching := true;
              break;
            }
          }
      }
      h := h + 1;
    }
    res := Ok(isMatching);
  }

  /** Once the callback throws on a prefix, the whole `filter` throws the same error. */
  lemma {:induction false} FilterOkErrPersists<T(!new), E>(s: seq<T>, f: T -> Result<bool, E>, n: nat)
    requires n <= |s|
    requires FilterOk(s[..n], f).Err?
    ensures FilterOk(s, f) == FilterOk(s[..n], f)
    decreases |s|
  {
    if n < |s| {
      var init := s[..|s| - 1];
      assert init[..n] == s[..n];
      FilterOkErrPersists(init, f, n);
    } else {
      assert s[..n] == s;
    }
  }

  lemma FilterOkStep<T(!new), E>(s: seq<T>, f: T -> Result<bool, E>, i: nat)
    requires i < |s|
    ensures FilterOk(s[..i + 1], f) ==
            match FilterOk(s[..i], f)
            case Err(e) => Err(e)
            case Ok(init) =>
              match f(s[i])
              case Err(e) => Err(e)
              case Ok(keep) => Ok(if keep then init + [s[i]] else init)
  {
    assert s[..i + 1][..i] == s[..i];
  }

  /** The global-search callback on one record. */
  method GlobalCallback(record: Record, headers: seq<Option<Header>>, search: string)
    returns (isMatching: Result<bool, QueryError>)
    ensures isMatching == GlobalKeep(headers, search)(record)
  {
    if search != "" {
      isMatching := ScanHeaders(record, headers, search);
    } else {
      isMatching := Ok(true);
    }
  }

  /** `records.filter(...)` with the global-search callback. */
  method ApplyGlobalSearch(records: seq<Record>, headers: seq<Option<Header>>, search: string)
    returns (res: Result<seq<Record>, QueryError>)
    ensures res == GlobalSearch(records, headers, search)
  {
    var keep := GlobalKeep(headers, search);
    var out: seq<Record> := [];
    var i := 0;
    while i < |records|
      invariant 0 <= i <= |records|
      invariant FilterOk(records[..i], keep) == Ok(out)
    {
      FilterOkStep(records, keep, i);
      var isMatching := GlobalCallback(records[i], headers, search);
      if isMatching.Err? {
        FilterOkErrPersists(records, keep, i + 1);
        return Err(isMatching.error);
      }
      if isMatching.value {
        out := out + [records[i]];
      }
      i := i + 1;
    }
    assert records[..i] == records;
    res := Ok(out);
  }

  // ---------------------------------------------------------------------------
  // Stage 2: column filters

  /** `record[key] || ""`. */
  function Haystack(v: Value): Value {
    if Truthy(v) then v else Str("")
  }

  /**
   * The column-filter callback on one value: a number matches an allowed value equal to its
   * decimal form, a string one it contains; falsy values count as "", anything else throws.
   */
  function AllowedMatch(v: Value, allowed: seq<string>, key: string): (res: Result<bool, QueryError>)
    ensures allowed == [] ==> res == Ok(false)
    ensures res.Err? <==> allowed != [] && Truthy(v) && !v.Num? && !v.Str?
    ensures res.Err? ==> res.error == NotFilterable(key, v)
    ensures allowed != [] && v.Num? && v.n != 0 ==> res == Ok(DecimalText(v.n) in allowed)
    ensures allowed != [] && v.Str? ==> res == Ok(exists a :: a in allowed && Contains(v.s, a))
    ensures !Truthy(v) && (forall a :: a in allowed ==> a != "") ==> res == Ok(false)
  {
    if allowed == [] then Ok(false)
    else
      match Haystack(v)
      case Num(n) => Ok(DecimalText(n) in allowed)
      case Str(s) => Ok(exists a :: a in allowed && Contains(s, a))
      case _ => Err(NotFilterable(key, v))
  }

  function FilterKeep(key: string, allowed: seq<string>): Record -> Result<bool, QueryError> {
    r => AllowedMatch(Field(r, key), allowed, key)
  }

  /** The filters for `keys`, in order; a column whose allowed list is empty is skipped. */
  function FiltersFrom(records: seq<Record>, keys: seq<string>, entries: map<string, seq<string>>)
    : Result<seq<Record>, QueryError>
    requires Keyed(keys, entries)
    decreases |keys|
  {
    if keys == [] then Ok(records)
    else
      var allowed := entries[keys[0]];
      if allowed == [] then FiltersFrom(records, keys[1..], entries)
      else
        match FilterOk(records, FilterKeep(keys[0], allowed))
        case Err(e) => Err(e)
        case Ok(rs) => FiltersFrom(rs, keys[1..], entries)
  }

  /** Every filtered column with a non-empty allowed list matches. */
  ghost predicate PassesFilters(r: Record, keys: seq<string>, entries: map<string, seq<string>>)
    requires Keyed(keys, entries)
  {
    forall k :: k in keys && entries[k] != [] ==> AllowedMatch(Field(r, k), entries[k], k) == Ok(true)
  }

  /** The filters compose as a conjunction and only ever drop records. */
  lemma {:induction false} FiltersMeaning(records: seq<Record>, keys: seq<string>, entries: map<string, seq<string>>)
    requires Keyed(keys, entries)
    ensures var res := FiltersFrom(records, keys, entries);
            res.Ok? ==> multiset(res.value) <= multiset(records)
                        && forall r :: r in res.value <==> r in records && PassesFilters(r, keys, entries)
    decreases |keys|
  {
    if keys != [] {
      var allowed := entries[keys[0]];
      if allowed == [] {
        FiltersMeaning(records, keys[1..], entries);
        forall r ensures PassesFilters(r, keys, entries) == PassesFilters(r, keys[1..], entries) {
          assert forall k :: k in keys <==> k == keys[0] || k in keys[1..];
        }
      } else {
        var f := FilterOk(records, FilterKeep(keys[0], allowed));
        if f.Ok? {
          FilterOkShrinks(records, FilterKeep(keys[0], allowed));
          FiltersMeaning(f.value, keys[1..], entries);
          forall r ensures PassesFilters(r, keys, entries) <==>
                           AllowedMatch(Field(r, keys[0]), allowed, keys[0]) == Ok(true) && PassesFilters(r, keys[1..], entries) {
            assert forall k :: k in keys <==> k == keys[0] || k in keys[1..];
          }
        }
      }
    }
  }

  /** Filter lists that are all empty impose nothing. */
  lemma {:induction false} FiltersInactive(records: seq<Record>, keys: seq<string>, entries: map<string, seq<string>>)
    requires Keyed(keys, entries)
    requires forall k :: k in keys ==> entries[k] == []
    ensures FiltersFrom(records, keys, entries) == Ok(records)
    decreases |keys|
  {
    if keys != [] {
      FiltersInactive(records, keys[1..], entries);
    }
  }

  /** A column added at the end of the order with an empty allowed list changes nothing. */
  lemma {:induction false} FiltersAppendEmpty(records: seq<Record>, keys: seq<string>, entries: map<string, seq<string>>,
                                               entries': map<string, seq<string>>, k: string)
    requires Keyed(keys, entries)
    requires forall j :: j in keys ==> j in entries' && entries'[j] == entries[j]
    requires k in entries' && entries'[k] == []
    ensures Keyed(keys + [k], entries')
    ensures FiltersFrom(records, keys + [k], entries') == FiltersFrom(records, keys, entries)
    decreases |keys|
  {
    if keys == [] {
      assert [k][1..] == [];
    } else {
      assert (keys + [k])[1..] == keys[1..] + [k];
      var allowed := entries[keys[0]];
      if allowed == [] {
        FiltersAppendEmpty(records, keys[1..], entries, entries', k);
      } else {
        match FilterOk(records, FilterKeep(keys[0], allowed)) {
          case Err(e) =>
          case Ok(rs) => FiltersAppendEmpty(rs, keys[1..], entries, entries', k);
        }
      }
    }
  }

  /** The filter callback's loop over allowed values, with its `isMatching` flag and `break`. */
  method MatchAllowed(v: Value, allowed: seq<string>, key: string) returns (res: Result<bool, QueryError>)
    ensures res == AllowedMatch(v, allowed, key)
  {
    var isMatching := false;
    var av := 0;
    while av < |allowed|
      invariant 0 <= av <= |allowed|
      invariant !isMatching
      invariant av > 0 ==> Haystack(v).Num? || Haystack(v).Str?
      invariant Haystack(v).Num? ==> forall j :: 0 <= j < av ==> allowed[j] != DecimalText(Haystack(v).n)
      invariant Haystack(v).Str? ==> forall j :: 0 <= j < av ==> !Contains(Haystack(v).s, allowed[j])
    {
      var needle := allowed[av];
      var haystack := Haystack(v);
      if haystack.Num? {
        isMatching := needle == DecimalText(haystack.n);
      } else if haystack.Str? {
        isMatching := Contains(haystack.s, needle);
      } else {
        return Err(NotFilterable(key, v));
      }
      if isMatching {
        break;
      }
      av := av + 1;
    }
    res := Ok(isMatching);
  }

  /** `records.filter(...)` for one filtered column. */
  method FilterColumn(records: seq<Record>, key: string, allowed: seq<string>) returns (res: Result<seq<Record>, QueryError>)
    ensures res == FilterOk(records, FilterKeep(key, allowed))
  {
    var out: seq<Record> := [];
    var i := 0;
    while i < |records|
      invariant 0 <= i <= |records|
      invariant FilterOk(records[..i], FilterKeep(key, allowed)) == Ok(out)
    {
      FilterOkStep(records, FilterKeep(key, allowed), i);
      var isMatching := MatchAllowed(Field(records[i], key), allowed, key);
      if isMatching.Err? {
        FilterOkErrPersists(records, FilterKeep(key, allowed), i + 1);
        return Err(isMatching.error);
      }
      if isMatching.value {
        out := out + [records[i]];
      }
      i := i + 1;
    }
    assert records[..i] == records;
    res := Ok(out);
  }

  /** `Object.keys(filtersMap).forEach(...)`. */
  method ApplyFilters(records: seq<Record>, filters: Dict<seq<string>>) returns (res: Result<seq<Record>, QueryError>)
    requires filters.Valid()
    ensures res == FiltersFrom(records, filters.keys, filters.entries)
  {
    var keys := filters.keys;
    var current := records;
    var i := 0;
    while i < |keys|
      invariant 0 <= i <= |keys|
      invariant FiltersFrom(current, keys[i..], filters.entries) == FiltersFrom(records, keys, filters.entries)
    {
      assert keys[i..][1..] == keys[i + 1..];
      var allowedValues := filters.entries[keys[i]];
      if |allowedValues| > 0 {
        var filtered := FilterColumn(current, keys[i], allowedValues);
        if filtered.Err? {
          return filtered;
        }
        current := filtered.value;
      }
      i := i + 1;
    }
    res := Ok(current);
  }

  // ---------------------------------------------------------------------------
  // Stage 3: column sorts

  function FieldOf(key: string): Record -> Value {
    r => Field(r, key)
  }

  /** `sortBy(records, [key])`, reversed for anything but "asc". */
  function SortOne(records: seq<Record>, key: string, dir: Direction, le: (Value, Value) -> bool): seq<Record> {
    var asc := SortBy(records, FieldOf(key), le);
    if dir == Asc then asc else Reverse(asc)
  }

  function SortsFrom(records: seq<Record>, keys: seq<string>, entries: map<string, Direction>, le: (Value, Value) -> bool)
    : seq<Record>
    requires Keyed(keys, entries)
    decreases |keys|
  {
    if keys == [] then records
    else SortsFrom(SortOne(records, keys[0], entries[keys[0]], le), keys[1..], entries, le)
  }

  predicate InOrder(a: Record, b: Record, key: string, dir: Direction, le: (Value, Value) -> bool) {
    if dir == Asc then le(Field(a, key), Field(b, key)) else le(Field(b, key), Field(a, key))
  }

  predicate OrderedBy(s: seq<Record>, key: string, dir: Direction, le: (Value, Value) -> bool) {
    forall i, j :: 0 <= i < j < |s| ==> InOrder(s[i], s[j], key, dir, le)
  }

  /** A sequence sorted ascending by the column is in order for "asc", and its reverse for anything else. */
  lemma AscendingOrdered(asc: seq<Record>, key: string, dir: Direction, le: (Value, Value) -> bool)
    requires Sorted(asc, FieldOf(key), le)
    ensures OrderedBy(if dir == Asc then asc else Reverse(asc), key, dir, le)
  {
    if dir == Desc {
      var r := Reverse(asc);
      forall i, j | 0 <= i < j < |r| ensures InOrder(r[i], r[j], key, dir, le) {
        assert r[i] == asc[|asc| - 1 - i] && r[j] == asc[|asc| - 1 - j];
      }
    }
  }

  /** One sort step reorders without adding or dropping, into the order its direction asks for. */
  lemma SortOneMeaning(records: seq<Record>, key: string, dir: Direction, le: (Value, Value) -> bool)
    requires TotalPreorder(le)
    ensures multiset(SortOne(records, key, dir, le)) == multiset(records)
    ensures OrderedBy(SortOne(records, key, dir, le), key, dir, le)
  {
    SortBySorted(records, FieldOf(key), le);
    AscendingOrdered(SortBy(records, FieldOf(key), le), key, dir, le);
  }

  /**
   * Records with equal keys keep their input order under "asc"; under any other direction they
   * come out in reverse input order, since that result is the ascending sort reversed.
   */
  lemma SortOneTies(records: seq<Record>, key: string, dir: Direction, le: (Value, Value) -> bool, k: Value)
    requires TotalPreorder(le)
    ensures var tie := KeyClass(FieldOf(key), le, k);
            Filter(SortOne(records, key, dir, le), tie)
            == if dir == Asc then Filter(records, tie) else Reverse(Filter(records, tie))
  {
    var tie := KeyClass(FieldOf(key), le, k);
    SortByStable(records, FieldOf(key), le, k);
    FilterReverse(SortBy(records, FieldOf(key), le), tie);
  }

  lemma {:induction false} SortsFromPermutes(records: seq<Record>, keys: seq<string>, entries: map<string, Direction>,
                                             le: (Value, Value) -> bool)
    requires Keyed(keys, entries)
    ensures multiset(SortsFrom(records, keys, entries, le)) == multiset(records)
    decreases |keys|
  {
    if keys != [] {
      SortsFromPermutes(SortOne(records, keys[0], entries[keys[0]], le), keys[1..], entries, le);
    }
  }

  /** The sorts run in key order, so the whole stage ends with the last key's sort. */
  lemma {:induction false} SortsFromLast(records: seq<Record>, keys: seq<string>, entries: map<string, Direction>,
                                         le: (Value, Value) -> bool)
    requires Keyed(keys, entries) && keys != []
    ensures var last := keys[|keys| - 1];
            SortsFrom(records, keys, entries, le)
            == SortOne(SortsFrom(records, keys[..|keys| - 1], entries, le), last, entries[last], le)
    decreases |keys|
  {
    if |keys| > 1 {
      assert keys[1..][..|keys[1..]| - 1] == keys[..|keys| - 1][1..];
      SortsFromLast(SortOne(records, keys[0], entries[keys[0]], le), keys[1..], entries, le);
    }
  }

  /** The last key iterated is the primary order of the sorted records. */
  lemma LastSortDominates(records: seq<Record>, keys: seq<string>, entries: map<string, Direction>,
                          le: (Value, Value) -> bool)
    requires Keyed(keys, entries) && keys != []
    requires TotalPreorder(le)
    ensures OrderedBy(SortsFrom(records, keys, entries, le), keys[|keys| - 1], entries[keys[|keys| - 1]], le)
  {
    var last := keys[|keys| - 1];
    SortsFromLast(records, keys, entries, le);
    SortOneMeaning(SortsFrom(records, keys[..|keys| - 1], entries, le), last, entries[last], le);
  }

  /** `Object.keys(sortingMap).forEach(...)`. */
  method ApplySorting(records: seq<Record>, sorting: Dict<Direction>, le: (Value, Value) -> bool) returns (res: seq<Record>)
    requires sorting.Valid()
    ensures res == SortsFrom(records, sorting.keys, sorting.entries, le)
  {
    var keys := sorting.keys;
    res := records;
    var i := 0;
    while i < |keys|
      invariant 0 <= i <= |keys|
      invariant SortsFrom(res, keys[i..], sorting.entries, le) == SortsFrom(records, keys, sorting.entries, le)
    {
      assert keys[i..][1..] == keys[i + 1..];
      var sortDirection := sorting.entries[keys[i]];
      if sortDirection == Asc {
        res := SortBy(res, FieldOf(keys[i]), le);
      } else {
        res := Reverse(SortBy(res, FieldOf(keys[i]), le));
      }
      i := i + 1;
    }
  }

  // ---------------------------------------------------------------------------
  // Stage 4: column searches

  /** The column-search callback: `record[key].toLowerCase()` throws on anything but a string. */
  function ColumnHit(r: Record, key: string, term: string): Result<bool, QueryError> {
    match Field(r, key)
    case Str(s) => Ok(Contains(Lower(s), Lower(term)))
    case v => Err(NotSearchable(key, v))
  }

  function SearchKeep(key: string, term: string): Record -> Result<bool, QueryError> {
    r => ColumnHit(r, key, term)
  }

  function SearchesFrom(records: seq<Record>, keys: seq<string>, entries: map<string, string>): Result<seq<Record>, QueryError>
    requires Keyed(keys, entries)
    decreases |keys|
  {
    if keys == [] then Ok(records)
    else
      match FilterOk(records, SearchKeep(keys[0], entries[keys[0]]))
      case Err(e) => Err(e)
      case Ok(rs) => SearchesFrom(rs, keys[1..], entries)
  }

  /** Every searched column holds a string containing its term, ignoring case. */
  ghost predicate PassesSearches(r: Record, keys: seq<string>, entries: map<string, string>)
    requires Keyed(keys, entries)
  {
    forall k :: k in keys ==> Field(r, k).Str? && Contains(Lower(Field(r, k).s), Lower(entries[k]))
  }

  lemma ContainsEmpty(hay: string)
    ensures Contains(hay, "")
  {
    assert OccursAt(hay, "", 0);
  }

  /** The searches keep exactly the records whose searched columns contain their terms. */
  lemma {:induction false} SearchesMeaning(records: seq<Record>, keys: seq<string>, entries: map<string, string>)
    requires Keyed(keys, entries)
    ensures var res := SearchesFrom(records, keys, entries);
            res.Ok? ==> multiset(res.value) <= multiset(records)
                        && forall r :: r in res.value <==> r in records && PassesSearches(r, keys, entries)
    decreases |keys|
  {
    if keys != [] {
      var f := FilterOk(records, SearchKeep(keys[0], entries[keys[0]]));
      if f.Ok? {
        FilterOkShrinks(records, SearchKeep(keys[0], entries[keys[0]]));
        SearchesMeaning(f.value, keys[1..], entries);
        forall r ensures PassesSearches(r, keys, entries) <==>
                         ColumnHit(r, keys[0], entries[keys[0]]) == Ok(true) && PassesSearches(r, keys[1..], entries) {
          assert forall k :: k in keys <==> k == keys[0] || k in keys[1..];
        }
      }
    }
  }

  /** When every searched column holds strings, the searches never throw. */
  lemma {:induction false} SearchesNoCrash(records: seq<Record>, keys: seq<string>, entries: map<string, string>)
    requires Keyed(keys, entries)
    requires forall r, k :: r in records && k in keys ==> Field(r, k).Str?
    ensures SearchesFrom(records, keys, entries).Ok?
    decreases |keys|
  {
    if keys != [] {
      var f := FilterOk(records, SearchKeep(keys[0], entries[keys[0]]));
      assert forall i :: 0 <= i < |records| ==> records[i] in records;
      assert f.Ok?;
      SearchesNoCrash(f.value, keys[1..], entries);
    }
  }

  /** Empty terms over string columns keep every record, in order. */
  lemma {:induction false} SearchesEmptyTerms(records: seq<Record>, keys: seq<string>, entries: map<string, string>)
    requires Keyed(keys, entries)
    requires forall r, k :: r in records && k in keys ==> Field(r, k).Str?
    requires forall k :: k in keys ==> entries[k] == ""
    ensures SearchesFrom(records, keys, entries) == Ok(records)
    decreases |keys|
  {
    if keys != [] {
      forall i | 0 <= i < |records| ensures ColumnHit(records[i], keys[0], "") == Ok(true) {
        assert records[i] in records;
        ContainsEmpty(Lower(Field(records[i], keys[0]).s));
      }
      SearchesEmptyTerms(records, keys[1..], entries);
    }
  }

  /** `Object.keys(searchMap).forEach(...)`. */
  method ApplySearches(records: seq<Record>, searches: Dict<string>) returns (res: Result<seq<Record>, QueryError>)
    requires searches.Valid()
    ensures res == SearchesFrom(records, searches.keys, searches.entries)
  {
    var keys := searches.keys;
    var current := records;
    var i := 0;
    while i < |keys|
      invariant 0 <= i <= |keys|
      invariant SearchesFrom(current, keys[i..], searches.entries) == SearchesFrom(records, keys, searches.entries)
    {
      assert keys[i..][1..] == keys[i + 1..];
      var filtered := FilterOk(current, SearchKeep(keys[i], searches.entries[keys[i]]));
      if filtered.Err? {
        return Err(filtered.error);
      }
      current := filtered.value;
      i := i + 1;
    }
    res := Ok(current);
  }

  /** Removing records keeps the order of the survivors, through every search. */
  lemma {:induction false} SearchesKeepOrder(records: seq<Record>, keys: seq<string>, entries: map<string, string>,
                                             before: (Record, Record) -> bool)
    requires Keyed(keys, entries)
    requires forall i, j :: 0 <= i < j < |records| ==> before(records[i], records[j])
    requires SearchesFrom(records, keys, entries).Ok?
    ensures var out := SearchesFrom(records, keys, entries).value;
            forall i, j :: 0 <= i < j < |out| ==> before(out[i], out[j])
    decreases |keys|
  {
    if keys != [] {
      var f := SearchKeep(keys[0], entries[keys[0]]);
      FilterOkKeepsOrder(records, f, before);
      SearchesKeepOrder(FilterOk(records, f).value, keys[1..], entries, before);
    }
  }

  // ---------------------------------------------------------------------------
  // The whole pipeline

  /** The four stages in order over one sheet's headers and records. */
  function Pipeline(records: seq<Record>, headers: seq<Option<Header>>, search: string, filters: Dict<seq<string>>,
                    sorting: Dict<Direction>, searches: Dict<string>, le: (Value, Value) -> bool)
    : Result<seq<Record>, QueryError>
    requires filters.Valid() && sorting.Valid() && searches.Valid()
  {
    match GlobalSearch(records, headers, search)
    case Err(e) => Err(e)
    case Ok(found) =>
      match FiltersFrom(found, filters.keys, filters.entries)
      case Err(e) => Err(e)
      case Ok(filtered) =>
        SearchesFrom(SortsFrom(filtered, sorting.keys, sorting.entries, le), searches.keys, searches.entries)
  }

  /** `getCurrentRecords`: the pipeline over the first sheet, or over nothing without a database. */
  function CurrentRecords(db: Option<Database>, search: string, filters: Dict<seq<string>>,
                          sorting: Dict<Direction>, searches: Dict<string>, le: (Value, Value) -> bool)
    : Result<seq<Record>, QueryError>
    requires filters.Valid() && sorting.Valid() && searches.Valid()
  {
    match db
    case None => Pipeline([], [], search, filters, sorting, searches, le)
    case Some(d) =>
      if d.sheets == [] then Err(NoSheet)
      else Pipeline(d.sheets[0].records, d.sheets[0].headers, search, filters, sorting, searches, le)
  }

  /** A record is shown iff it is in the sheet and passes the global search, every filter and every search. */
  lemma PipelineMeaning(records: seq<Record>, headers: seq<Option<Header>>, search: string, filters: Dict<seq<string>>,
                        sorting: Dict<Direction>, searches: Dict<string>, le: (Value, Value) -> bool)
    requires filters.Valid() && sorting.Valid() && searches.Valid()
    ensures var res := Pipeline(records, headers, search, filters, sorting, searches, le);
            res.Ok? ==> multiset(res.value) <= multiset(records)
                        && forall r :: r in res.value <==>
                             && r in records
                             && (search == "" || MatchesSomeHeader(r, headers, search))
                             && PassesFilters(r, filters.keys, filters.entries)
                             && PassesSearches(r, searches.keys, searches.entries)
  {
    GlobalSearchMeaning(records, headers, search);
    var found := GlobalSearch(records, headers, search);
    if found.Ok? {
      FilterOkShrinks(records, GlobalKeep(headers, search));
      FiltersMeaning(found.value, filters.keys, filters.entries);
      var filtered := FiltersFrom(found.value, filters.keys, filters.entries);
      if filtered.Ok? {
        var sorted := SortsFrom(filtered.value, sorting.keys, sorting.entries, le);
        SortsFromPermutes(filtered.value, sorting.keys, sorting.entries, le);
        assert forall r :: r in sorted <==> r in filtered.value by {
          assert forall r :: r in sorted <==> r in multiset(sorted);
          assert forall r :: r in filtered.value <==> r in multiset(filtered.value);
        }
        SearchesMeaning(sorted, searches.keys, searches.entries);
      }
    }
  }

  /** With no search, no active filter, no sort and no column search, the sheet shows as it is. */
  lemma PipelineEmptyQuery(records: seq<Record>, headers: seq<Option<Header>>, filters: Dict<seq<string>>,
                           sorting: Dict<Direction>, searches: Dict<string>, le: (Value, Value) -> bool)
    requires filters.Valid() && sorting.Valid() && searches.Valid()
    requires forall k :: k in filters.keys ==> filters.entries[k] == []
    requires sorting.keys == [] && searches.keys == []
    ensures Pipeline(records, headers, "", filters, sorting, searches, le) == Ok(records)
  {
    GlobalSearchMeaning(records, headers, "");
    FiltersInactive(records, filters.keys, filters.entries);
  }

  /** The sort applied last is the primary order of what is shown. */
  lemma PipelineOrder(records: seq<Record>, headers: seq<Option<Header>>, search: string, filters: Dict<seq<string>>,
                      sorting: Dict<Direction>, searches: Dict<string>, le: (Value, Value) -> bool)
    requires filters.Valid() && sorting.Valid() && searches.Valid()
    requires TotalPreorder(le)
    requires sorting.keys != []
    ensures var res := Pipeline(records, headers, search, filters, sorting, searches, le);
            var last := sorting.keys[|sorting.keys| - 1];
            res.Ok? ==> OrderedBy(res.value, last, sorting.entries[last], le)
  {
    var found := GlobalSearch(records, headers, search);
    if found.Ok? {
      var filtered := FiltersFrom(found.value, filters.keys, filters.entries);
      if filtered.Ok? {
        var last := sorting.keys[|sorting.keys| - 1];
        var dir := sorting.entries[last];
        var sorted := SortsFrom(filtered.value, sorting.keys, sorting.entries, le);
        LastSortDominates(filtered.value, sorting.keys, sorting.entries, le);
        if SearchesFrom(sorted, searches.keys, searches.entries).Ok? {
          SearchesKeepOrder(sorted, searches.keys, searches.entries, (a, b) => InOrder(a, b, last, dir, le));
        }
      }
    }
  }

  lemma {:induction false} FiltersOfNothing(keys: seq<string>, entries: map<string, seq<string>>)
    requires Keyed(keys, entries)
    ensures FiltersFrom([], keys, entries) == Ok([])
    decreases |keys|
  {
    if keys != [] {
      FiltersOfNothing(keys[1..], entries);
    }
  }

  /** Without a database the view shows no record and nothing throws. */
  lemma CurrentRecordsWithoutDatabase(search: string, filters: Dict<seq<string>>, sorting: Dict<Direction>,
                                      searches: Dict<string>, le: (Value, Value) -> bool)
    requires filters.Valid() && sorting.Valid() && searches.Valid()
    ensures CurrentRecords(None, search, filters, sorting, searches, le) == Ok([])
  {
    FiltersOfNothing(filters.keys, filters.entries);
    var sorted := SortsFrom([], sorting.keys, sorting.entries, le);
    SortsFromPermutes([], sorting.keys, sorting.entries, le);
    assert sorted == [] by {
      assert |multiset(sorted)| == 0;
    }
    SearchesNoCrash([], searches.keys, searches.entries);
    SearchesMeaning([], searches.keys, searches.entries);
    var res := SearchesFrom([], searches.keys, searches.entries);
    assert res.value == [] by {
      assert |multiset(res.value)| == 0;
    }
  }
}
