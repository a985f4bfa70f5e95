/**
 * The data view component (`AppDataView`): its state (filters, column searches and sorts,
 * each a plain object keyed by header name), the handlers that update that state, and the
 * two queries the rendering uses.
 */
module View {
  import opened Wrappers
  import opened Js
  import opened Sorting
  import opened Dicts
  import opened Api
  import opened Query
  import opened Menu

  /** `onSort(mode)`: picking the direction already in force clears the column's sort. */
  function ToggleSort(sorting: Dict<Direction>, key: string, mode: Direction): (r: Dict<Direction>)
    requires sorting.Valid()
    ensures r.Valid()
    ensures r.Get(key) == if sorting.Get(key) == Some(mode) then None else Some(mode)
    ensures forall j :: j != key ==> r.Get(j) == sorting.Get(j)
    // a newly sorted column becomes the last key, so the primary order
    ensures sorting.Get(key) == None ==> r.keys == sorting.keys + [key]
    // switching direction keeps the column's place among the sort keys
    ensures sorting.Get(key).Some? && sorting.Get(key) != Some(mode) ==> r.keys == sorting.keys
    ensures sorting.Get(key) == Some(mode) ==> forall j :: j in r.keys <==> j in sorting.keys && j != key
    // clearing a sort keeps the other columns in their order, so the primary order is the last of them
    ensures sorting.Get(key) == Some(mode) ==> r.keys == Without(sorting.keys, key)
  {
    if sorting.Get(key) == Some(mode) then sorting.Delete(key) else sorting.Put(key, mode)
  }

  /** Picking the same direction twice on an unsorted column restores the sorts exactly. */
  lemma ToggleSortTwice(sorting: Dict<Direction>, key: string, mode: Direction)
    requires sorting.Valid() && sorting.Get(key) == None
    ensures ToggleSort(ToggleSort(sorting, key, mode), key, mode) == sorting
  {
    PutDeleteFresh(sorting, key, mode);
  }

  /** The records shown are ordered by the last sort key, in its direction. */
  lemma LastSortLeads(db: Option<Database>, search: string, filters: Dict<seq<string>>, sorting: Dict<Direction>,
                      searches: Dict<string>, le: (Value, Value) -> bool)
    requires filters.Valid() && sorting.Valid() && searches.Valid()
    requires TotalPreorder(le)
    requires sorting.keys != []
    ensures var res := CurrentRecords(db, search, filters, sorting, searches, le);
            var last := sorting.keys[|sorting.keys| - 1];
            res.Ok? ==> OrderedBy(res.value, last, sorting.entries[last], le)
  {
    match db {
      case None =>
        PipelineOrder([], [], search, filters, sorting, searches, le);
      case Some(d) =>
        if d.sheets != [] {
          PipelineOrder(d.sheets[0].records, d.sheets[0].headers, search, filters, sorting, searches, le);
        }
    }
  }

  /** Sorting a column that was not sorted makes it the primary order of the records shown. */
  lemma NewSortLeads(db: Option<Database>, search: string, filters: Dict<seq<string>>, sorting: Dict<Direction>,
                     searches: Dict<string>, le: (Value, Value) -> bool, key: string, mode: Direction)
    requires filters.Valid() && sorting.Valid() && searches.Valid()
    requires TotalPreorder(le)
    requires sorting.Get(key) == None
    ensures var res := CurrentRecords(db, search, filters, ToggleSort(sorting, key, mode), searches, le);
            res.Ok? ==> OrderedBy(res.value, key, mode, le)
  {
    var sorted := ToggleSort(sorting, key, mode);
    assert sorted.keys[|sorted.keys| - 1] == key;
    assert sorted.entries[key] == mode by {
      assert sorted.Get(key) == Some(mode);
    }
    LastSortLeads(db, search, filters, sorted, searches, le);
  }

  /** Clearing a column's sort leaves the records shown ordered by the column sorted last among the others. */
  lemma ClearedSortYields(db: Option<Database>, search: string, filters: Dict<seq<string>>, sorting: Dict<Direction>,
                          searches: Dict<string>, le: (Value, Value) -> bool, key: string, mode: Direction)
    requires filters.Valid() && sorting.Valid() && searches.Valid()
    requires TotalPreorder(le)
    requires sorting.Get(key) == Some(mode)
    requires Without(sorting.keys, key) != []
    ensures var rest := Without(sorting.keys, key);
            var lead := rest[|rest| - 1];
            var res := CurrentRecords(db, search, filters, ToggleSort(sorting, key, mode), searches, le);
            res.Ok? ==> lead != key && OrderedBy(res.value, lead, sorting.entries[lead], le)
  {
    var cleared := ToggleSort(sorting, key, mode);
    var rest := Without(sorting.keys, key);
    assert cleared.keys == rest;
    var lead := rest[|rest| - 1];
    assert lead in rest;
    assert lead != key && lead in sorting.keys;
    assert cleared.entries[lead] == sorting.entries[lead] by {
      assert cleared.Get(lead) == sorting.Get(lead);
    }
    LastSortLeads(db, search, filters, cleared, searches, le);
  }

  /** `onCheckBoxClick`: checking appends the option to the column's list (creating it), unchecking removes it. */
  function ToggleFilter(filters: Dict<seq<string>>, key: string, option: string, checked: bool): (r: Dict<seq<string>>)
    requires filters.Valid()
    ensures r.Valid()
    ensures forall j :: j != key ==> r.Get(j) == filters.Get(j)
    ensures checked ==> r.Get(key) == Some(filters.Get(key).GetOr([]) + [option])
    ensures !checked && filters.Get(key).Some? ==>
              (r.Get(key).Some? && forall x :: x in r.Get(key).value <==> x in filters.Get(key).value && x != option)
    ensures !checked && filters.Get(key).None? ==> r == filters
    // the spread keeps the columns in their order; a newly created list comes last
    ensures r.keys == if checked && filters.Get(key).None? then filters.keys + [key] else filters.keys
  {
    if checked then filters.Put(key, filters.Get(key).GetOr([]) + [option])
    else if filters.Get(key).Some? then filters.Put(key, Without(filters.entries[key], option))
    else filters
  }

  /** Checking an option not in the list and unchecking it again restores the column's list. */
  lemma CheckUncheck(filters: Dict<seq<string>>, key: string, option: string)
    requires filters.Valid()
    requires option !in filters.Get(key).GetOr([])
    ensures var r := ToggleFilter(ToggleFilter(filters, key, option, true), key, option, false);
            && r.Get(key) == Some(filters.Get(key).GetOr([]))
            && (filters.Get(key).Some? ==> r == filters)
            && (filters.Get(key).None? ==> r.keys == filters.keys + [key])
  {
    var list := filters.Get(key).GetOr([]);
    WithoutAppended(list, option);
    if filters.Get(key).Some? {
      assert filters.entries[key := list] == filters.entries;
    }
  }

  /** ... and the records shown are the same as before the check. */
  lemma CheckUncheckShowsSame(db: Option<Database>, search: string, filters: Dict<seq<string>>, sorting: Dict<Direction>,
                              searches: Dict<string>, le: (Value, Value) -> bool, key: string, option: string)
    requires filters.Valid() && sorting.Valid() && searches.Valid()
    requires option !in filters.Get(key).GetOr([])
    ensures var r := ToggleFilter(ToggleFilter(filters, key, option, true), key, option, false);
            CurrentRecords(db, search, r, sorting, searches, le) == CurrentRecords(db, search, filters, sorting, searches, le)
  {
    var r := ToggleFilter(ToggleFilter(filters, key, option, true), key, option, false);
    CheckUncheck(filters, key, option);
    if filters.Get(key).None? && (db.None? || db.value.sheets != []) {
      var records := if db.None? then [] else db.value.sheets[0].records;
      var headers := if db.None? then [] else db.value.sheets[0].headers;
      var found := GlobalSearch(records, headers, search);
      if found.Ok? {
        FiltersAppendEmpty(found.value, filters.keys, filters.entries, r.entries, key);
      }
    }
  }

  class DataView {
    const database: Option<Database>
    const search: string
    var filters: Dict<seq<string>>
    var searches: Dict<string>
    var sorting: Dict<Direction>

    ghost predicate Valid()
      reads this
    {
      filters.Valid() && searches.Valid() && sorting.Valid()
    }

    /** The initial state: no filter, no column search, no sort. */
    constructor(database: Option<Database>, search: string)
      ensures Valid()
      ensures this.database == database && this.search == search
      ensures filters.keys == [] && searches.keys == [] && sorting.keys == []
    {
      this.database := database;
      this.search := search;
      filters := Empty();
      searches := Empty();
      sorting := Empty();
    }

    method OnSort(header: Header, mode: Direction)
      requires Valid()
      modifies this
      ensures Valid()
      ensures sorting == ToggleSort(old(sorting), KeyOf(header), mode)
      ensures filters == old(filters) && searches == old(searches)
    {
      var key := KeyOf(header);
      if sorting.Get(key) == Some(mode) {
        sorting := sorting.Delete(key);
      } else {
        sorting := sorting.Put(key, mode);
      }
    }

    method OnCheckBoxClick(header: Header, option: string, isApplied: bool)
      requires Valid()
      modifies this
      ensures Valid()
      ensures filters == ToggleFilter(old(filters), KeyOf(header), option, isApplied)
      ensures sorting == old(sorting) && searches == old(searches)
    {
      var key := KeyOf(header);
      if isApplied {
        if filters.Get(key).None? {
          filters := filters.Put(key, []);
        }
        filters := filters.Put(key, filters.entries[key] + [option]);
        assert old(filters).entries[key := []][key := [option]] == old(filters).entries[key := [option]];
      } else {
        if filters.Get(key).Some? {
          filters := filters.Put(key, Without(filters.entries[key], option));
        }
      }
    }

    /** `key` is the `data-header-name` attribute of the input, `text` its value. */
    method OnHeaderSearchTermChanged(key: string, text: string)
      requires Valid()
      modifies this
      ensures Valid()
      ensures searches == old(searches).Put(key, text)
      ensures filters == old(filters) && sorting == old(sorting)
    {
      searches := searches.Put(key, text);
    }

    method GetCurrentRecords(le: (Value, Value) -> bool) returns (res: Result<seq<Record>, QueryError>)
      requires Valid()
      ensures res == CurrentRecords(database, search, filters, sorting, searches, le)
    {
      var headers: seq<Option<Header>> := [];
      var records: seq<Record> := [];
      if database.Some? {
        if database.value.sheets == [] {
          return Err(NoSheet);
        }
        headers := database.value.sheets[0].headers;
        records := database.value.sheets[0].records;
      }
      var found := ApplyGlobalSearch(records, headers, search);
      if found.Err? {
        return Err(found.error);
      }
      var filtered := ApplyFilters(found.value, filters);
      if filtered.Err? {
        return Err(filtered.error);
      }
      var sorted := ApplySorting(filtered.value, sorting, le);
      res := ApplySearches(sorted, searches);
    }

    method GetHeaderMenuOptions(header: Header) returns (res: Result<seq<string>, MenuError>)
      ensures res == HeaderMenuOptions(database, header)
    {
      if database.None? {
        return Ok([]);
      }
      if database.value.sheets == [] {
        return Err(MenuNoSheet);
      }
      var records := database.value.sheets[0].records;
      var itemsList: seq<string> := [];
      var i := 0;
      while i < |records|
        invariant 0 <= i <= |records|
        invariant Collected(records[..i], header) == Ok(itemsList)
      {
        CollectedStep(records, header, i);
        var it := ItemOf(records[i], header);
        if !it.Str? {
          CollectedErrPersists(records, header, i + 1);
          return Err(NotSplittable(it));
        }
        var values := TrimAll(Split(it.s, ';'));
        assert Pieces(it) == Ok(values);
        itemsList := itemsList + values;
        i := i + 1;
      }
      assert records[..i] == records;
      res := Ok(Options(itemsList));
    }
  }
}
