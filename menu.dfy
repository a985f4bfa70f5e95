/**
 * The options of a column's header menu (`getHeaderMenuOptions`): every record's value under
 * the header, split on ';', trimmed, with placeholders and blanks dropped, deduplicated and
 * sorted by the default `Array.prototype.sort` order.
 */
module Menu {
  import opened Wrappers
  import opened Js
  import opened Seqs
  import opened Sorting
  import opened Api

  /** The TypeErrors the menu can throw. */
  datatype MenuError =
    | MenuNoSheet               // `sheets[0].records` of an empty workbook
    | NotSplittable(value: Value) // `split` on a value that is not a string

  /** A String column's values are stringified and trimmed; other columns keep the raw value. */
  function MenuItem(v: Value, h: Header): Value {
    if h.typ == Some(String) then Str(Trim(Text(v))) else v
  }

  function ItemOf(r: Record, h: Header): Value {
    MenuItem(Field(r, KeyOf(h)), h)
  }

  function TrimAll(parts: seq<string>): (r: seq<string>)
    ensures |r| == |parts|
    ensures forall i :: 0 <= i < |parts| ==> r[i] == Trim(parts[i])
  {
    seq(|parts|, i requires 0 <= i < |parts| => Trim(parts[i]))
  }

  /** No character of the trimmed string is one the input lacked. */
  lemma TrimWithout(s: string, c: char)
    requires c !in s
    ensures c !in Trim(s)
  {
    var i, j :| 0 <= i <= j <= |s| && Trim(s) == s[i..j];
    assert forall k :: 0 <= k < j - i ==> s[i..j][k] == s[i + k];
  }

  /** A trimmed string neither starts nor ends with white space. */
  predicate Trimmed(x: string) {
    x == [] || (!IsSpace(x[0]) && !IsSpace(x[|x| - 1]))
  }

  /** `it.split(";").map(it => it.trim())`. */
  function Pieces(v: Value): (res: Result<seq<string>, MenuError>)
    ensures res.Err? <==> !v.Str?
    ensures res.Err? ==> res.error == NotSplittable(v)
    ensures res.Ok? ==> |res.value| >= 1
    ensures res.Ok? ==> forall x :: x in res.value ==> ';' !in x && Trimmed(x)
  {
    match v
    case Str(s) =>
      var parts := Split(s, ';');
      assert forall x :: x in TrimAll(parts) ==> ';' !in x && Trimmed(x) by {
        forall i | 0 <= i < |parts| ensures ';' !in Trim(parts[i]) {
          TrimWithout(parts[i], ';');
        }
      }
      Ok(TrimAll(parts))
    case _ => Err(NotSplittable(v))
  }

  /** The pieces of a value, none when it cannot be split. */
  function PiecesOf(v: Value): seq<string> {
    match Pieces(v)
    case Ok(ps) => ps
    case Err(_) => []
  }

  function RecordPieces(h: Header): Record -> seq<string> {
    r => PiecesOf(ItemOf(r, h))
  }

  /** `x` is one of the trimmed `;`-separated pieces of some record's value. */
  ghost predicate PieceOf(x: string, records: seq<Record>, h: Header) {
    InSome(x, records, RecordPieces(h))
  }

  ghost predicate InSome<T, U>(x: U, s: seq<T>, f: T -> seq<U>) {
    exists i :: 0 <= i < |s| && x in f(s[i])
  }

  lemma InSomeSnoc<T, U>(x: U, s: seq<T>, f: T -> seq<U>)
    requires s != []
    ensures InSome(x, s, f) <==> InSome(x, s[..|s| - 1], f) || x in f(s[|s| - 1])
  {
    var init := s[..|s| - 1];
    if InSome(x, s, f) {
      var i :| 0 <= i < |s| && x in f(s[i]);
      if i < |init| {
        assert s[i] == init[i];
      }
    }
    if InSome(x, init, f) {
      var i :| 0 <= i < |init| && x in f(init[i]);
      assert init[i] == s[i];
    }
  }

  /** `itemsList` after the `forEach`: the pieces of every record in order; the first non-string throws. */
  function Collected(records: seq<Record>, h: Header): (res: Result<seq<string>, MenuError>)
    ensures res.Ok? <==> forall i :: 0 <= i < |records| ==> ItemOf(records[i], h).Str?
    ensures res.Err? ==> exists i :: 0 <= i < |records| && res.error == NotSplittable(ItemOf(records[i], h))
                                   && forall j :: 0 <= j < i ==> ItemOf(records[j], h).Str?
    ensures res.Ok? ==> forall x :: x in res.value ==> ';' !in x && Trimmed(x)
    decreases |records|
  {
    if records == [] then Ok([])
    else
      var init := records[..|records| - 1];
      match Collected(init, h)
      case Err(e) => Err(e)
      case Ok(items) =>
        match Pieces(ItemOf(records[|records| - 1], h))
        case Err(e) => Err(e)
        case Ok(ps) => Ok(items + ps)
  }

  /** The collected items are exactly the pieces of the records' values. */
  lemma {:induction false} CollectedMembers(records: seq<Record>, h: Header)
    requires Collected(records, h).Ok?
    ensures forall x :: x in Collected(records, h).value <==> PieceOf(x, records, h)
    decreases |records|
  {
    if records != [] {
      var init := records[..|records| - 1];
      CollectedMembers(init, h);
      var items := Collected(init, h).value;
      var last := PiecesOf(ItemOf(records[|records| - 1], h));
      assert Collected(records, h).value == items + last;
      assert RecordPieces(h)(records[|records| - 1]) == last;
      forall x ensures x in items + last <==> PieceOf(x, records, h) {
        InSomeSnoc(x, records, RecordPieces(h));
      }
    }
  }

  lemma CollectedStep(records: seq<Record>, h: Header, i: nat)
    requires i < |records|
    ensures Collected(records[..i + 1], h) ==
            match Collected(records[..i], h)
            case Err(e) => Err(e)
            case Ok(items) =>
              match Pieces(ItemOf(records[i], h))
              case Err(e) => Err(e)
              case Ok(ps) => Ok(items + ps)
  {
    assert records[..i + 1][..i] == records[..i];
  }

  /** Once a prefix throws, the whole `forEach` throws the same error. */
  lemma {:induction false} CollectedErrPersists(records: seq<Record>, h: Header, n: nat)
    requires n <= |records|
    requires Collected(records[..n], h).Err?
    ensures Collected(records, h) == Collected(records[..n], h)
    decreases |records| - n
  {
    if n < |records| {
      assert records[..n + 1][..n] == records[..n];
      CollectedErrPersists(records, h, n + 1);
    } else {
      assert records[..n] == records;
    }
  }

  /** Placeholders and blanks are not offered. */
  predicate Listed(x: string) {
    x != "NA" && x != "N/A" && x != "undefined" && |x| > 0
  }

  function Identity(x: string): string {
    x
  }

  /** `uniq(itemsList.filter(...)).sort()`. */
  function Options(items: seq<string>): seq<string> {
    SortBy(Uniq(Filter(items, Listed)), Identity, StringLe)
  }

  /** Strictly increasing in the default sort order: sorted and without repeats. */
  predicate StrictlyAscending(s: seq<string>) {
    forall i, j :: 0 <= i < j < |s| ==> StringLe(s[i], s[j]) && s[i] != s[j]
  }

  lemma StringOrder()
    ensures TotalPreorder(StringLe)
  {
    forall a, b ensures StringLe(a, b) || StringLe(b, a) {
      StringLeTotal(a, b);
    }
    forall a, b, c | StringLe(a, b) && StringLe(b, c) ensures StringLe(a, c) {
      StringLeTransitive(a, b, c);
    }
  }

  /** The options are the listed items, each once, in increasing order. */
  lemma OptionsMeaning(items: seq<string>)
    ensures StrictlyAscending(Options(items))
    ensures forall x :: x in Options(items) <==> x in items && Listed(x)
  {
    var u := Uniq(Filter(items, Listed));
    StringOrder();
    SortBySorted(u, Identity, StringLe);
    SortByDistinct(u, Identity, StringLe);
    var r := SortBy(u, Identity, StringLe);
    assert forall x :: x in r <==> x in multiset(u);
  }

  lemma SameElementsEmpty(a: seq<string>, b: seq<string>)
    requires forall x :: x in a <==> x in b
    ensures a == [] <==> b == []
  {
    if a != [] {
      assert a[0] in b;
    }
    if b != [] {
      assert b[0] in a;
    }
  }

  /** Two strictly increasing lists with the same elements are the same list. */
  lemma {:induction false} AscendingUnique(a: seq<string>, b: seq<string>)
    requires StrictlyAscending(a) && StrictlyAscending(b)
    requires forall x :: x in a <==> x in b
    ensures a == b
    decreases |a|
  {
    SameElementsEmpty(a, b);
    if a != [] {
      if a[0] != b[0] {
        assert a[0] in b;
        assert b[0] in a;
        var i :| 0 <= i < |b| && b[i] == a[0];
        var j :| 0 <= j < |a| && a[j] == b[0];
        assert StringLe(b[0], a[0]) && StringLe(a[0], b[0]);
        StringLeAntisymmetric(a[0], b[0]);
        assert false;
      }
      forall x ensures x in a[1..] <==> x in b[1..] {
        if x in a[1..] {
          var k :| 0 <= k < |a[1..]| && a[1..][k] == x;
          assert a[k + 1] == x;
          assert x in b;
          var m :| 0 <= m < |b| && b[m] == x;
          assert m != 0;
          assert b[1..][m - 1] == x;
        }
        if x in b[1..] {
          var k :| 0 <= k < |b[1..]| && b[1..][k] == x;
          assert b[k + 1] == x;
          assert x in a;
          var m :| 0 <= m < |a| && a[m] == x;
          assert m != 0;
          assert a[1..][m - 1] == x;
        }
      }
      AscendingUnique(a[1..], b[1..]);
      assert a == [a[0]] + a[1..] && b == [b[0]] + b[1..];
    }
  }

  /** The options are the only strictly increasing list of the listed items. */
  lemma OptionsUnique(items: seq<string>, s: seq<string>)
    requires StrictlyAscending(s)
    requires forall x :: x in s <==> x in items && Listed(x)
    ensures s == Options(items)
  {
    OptionsMeaning(items);
    AscendingUnique(s, Options(items));
  }

  /** `getHeaderMenuOptions(header)`: no options without a database. */
  function HeaderMenuOptions(db: Option<Database>, h: Header): Result<seq<string>, MenuError> {
    match db
    case None => Ok([])
    case Some(d) =>
      if d.sheets == [] then Err(MenuNoSheet)
      else
        match Collected(d.sheets[0].records, h)
        case Err(e) => Err(e)
        case Ok(items) => Ok(Options(items))
  }

  /**
   * Without a database the menu is empty, and with no sheet it throws. Otherwise it offers, in
   * strictly increasing order, exactly the listed trimmed `;`-separated pieces of the first
   * sheet's values; it throws iff some value is not a string, so never for a String column.
   */
  lemma HeaderMenuOptionsMeaning(db: Option<Database>, h: Header)
    ensures db.None? ==> HeaderMenuOptions(db, h) == Ok([])
    ensures db.Some? && db.value.sheets == [] ==> HeaderMenuOptions(db, h) == Err(MenuNoSheet)
    ensures db.Some? && db.value.sheets != [] ==>
            var res := HeaderMenuOptions(db, h);
            var records := db.value.sheets[0].records;
            && (res.Ok? <==> forall i :: 0 <= i < |records| ==> ItemOf(records[i], h).Str?)
            && (h.typ == Some(String) ==> res.Ok?)
            && (res.Ok? ==> StrictlyAscending(res.value))
            && (res.Ok? ==> forall x :: x in res.value <==> Listed(x) && PieceOf(x, records, h))
            && (res.Ok? ==> forall x :: x in res.value ==> ';' !in x && Trimmed(x))
  {
    if db.Some? && db.value.sheets != [] {
      var records := db.value.sheets[0].records;
      var c := Collected(records, h);
      if c.Ok? {
        CollectedMembers(records, h);
        OptionsMeaning(c.value);
      }
    }
  }
}
