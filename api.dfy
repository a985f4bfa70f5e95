/**
 * Loading a workbook: the per-tag cell decoder, header extraction from row 1 of a
 * worksheet, and the assembly of the database from already-parsed worksheets.
 */
module Api {
  import opened Wrappers
  import opened Js

  datatype CellType = Boolean | Number | Error | String | Date

  /** A worksheet cell as the spreadsheet parser gives it: type tag `t` (maybe absent) and raw value `v`. */
  datatype Cell = Cell(t: Option<string>, v: Value)

  /** What `columnTypeDecode` returns: a `{type, value}` pair, or the raw value itself. */
  datatype Decoded = Typed(typ: CellType, value: Value) | Raw(raw: Value)

  /** A record as the parser builds it from a data row: header text to value. */
  type Record = map<string, Value>

  /** `record[key]`. */
  function Field(r: Record, key: string): Value {
    if key in r then r[key] else Missing
  }

  predicate WellTyped(typ: CellType, v: Value) {
    match typ
    case Boolean => v.Bool?
    case Number => v.Num?
    case Error => v.ErrV?
    case String => v.Str?
    case Date => v.DateV?
  }

  predicate KnownTag(tag: string) {
    tag == "b" || tag == "n" || tag == "e" || tag == "s" || tag == "d"
  }

  /** `Number(input)`; None stands for NaN. */
  function ToNumber(input: Value, host: Host): Option<int> {
    match input
    case Num(n) => Some(n)
    case Bool(b) => Some(if b then 1 else 0)
    case Str(s) => host.parseNumber(s)
    case DateV(t, _) => Some(t)
    case ErrV(_) => None
    case Missing => None
  }

  /** `new Date(input)`. */
  function NewDate(input: Value, host: Host): (r: Value)
    ensures r.DateV?
  {
    var t := host.dateTime(input);
    DateV(t, host.dateText(t))
  }

  /** `columnTypeDecodesMap[tag](input)`; None when the map has no entry for `tag`. */
  function DecodeByTag(tag: string, input: Value, host: Host): (r: Option<Decoded>)
    ensures r.Some? <==> KnownTag(tag)
    ensures r.Some? ==> r.value.Typed? && WellTyped(r.value.typ, r.value.value)
  {
    if tag == "b" then Some(Typed(Boolean, Bool(Truthy(input))))
    else if tag == "n" then Some(Typed(Number, Num(ToNumber(input, host).GetOr(0))))
    else if tag == "e" then Some(Typed(Error, ErrV(if input == Missing then "" else Text(input))))
    else if tag == "s" then Some(Typed(String, Str(if Truthy(input) then Text(input) else "")))
    else if tag == "d" then Some(Typed(Date, NewDate(input, host)))
    else None
  }

  /** `columnTypeDecode(cell)`. */
  function Decode(cell: Cell, host: Host): (d: Decoded)
    ensures d.Raw? <==> cell.t.None? || !KnownTag(cell.t.value)
    ensures d.Raw? ==> d.raw == cell.v
    ensures d.Typed? ==> WellTyped(d.typ, d.value)
    ensures cell.t == Some("b") ==> d == Typed(Boolean, Bool(Truthy(cell.v)))
    ensures cell.t == Some("n") ==> d.Typed? && d.typ == Number
                                    && (ToNumber(cell.v, host).None? ==> d.value == Num(0))
                                    && (ToNumber(cell.v, host).Some? ==> d.value == Num(ToNumber(cell.v, host).value))
    ensures cell.t == Some("n") && cell.v.Num? ==> d.value == cell.v
    ensures cell.t == Some("s") ==> d.Typed? && d.typ == String
                                    && (!Truthy(cell.v) ==> d.value == Str(""))
                                    && (Truthy(cell.v) ==> d.value == Str(Text(cell.v)))
    ensures cell.t == Some("s") && cell.v.Str? ==> d.value == cell.v
    ensures cell.t == Some("e") ==> d.Typed? && d.typ == Error && d.value.ErrV?
    ensures cell.t == Some("d") ==> d.Typed? && d.typ == Date && d.value.DateV?
  {
    match cell.t
    case None => Raw(cell.v)
    case Some(tag) =>
      match DecodeByTag(tag, cell.v, host)
      case Some(decoded) => decoded
      case None => Raw(cell.v)
  }

  /** Column metadata `{name, type}`; `typ` None is an undefined type. */
  datatype Header = Header(name: Value, typ: Option<CellType>)

  /** The property key `record[header.name]` looks up. */
  function KeyOf(h: Header): string {
    Text(h.name)
  }

  datatype ApiError = UndefinedHeaderCell(column: nat) | MissingWorksheet(name: string)

  /**
   * `{name: decoded.value, type: decoded.type}`. A raw value has neither property, so both
   * are undefined; an undefined raw value has no properties at all and the access throws (None).
   */
  function HeaderOf(d: Decoded): Option<Header> {
    match d
    case Typed(typ, value) => Some(Header(value, Some(typ)))
    case Raw(Missing) => None
    case Raw(_) => Some(Header(Missing, None))
  }

  /** `header[i] = Some(h)` on an array with holes (None); a write past the end grows it. */
  function Assign(hs: seq<Option<Header>>, i: nat, h: Header): (r: seq<Option<Header>>)
    ensures |r| == if i < |hs| then |hs| else i + 1
    ensures r[i] == Some(h)
    ensures forall j :: 0 <= j < |r| && j != i ==> r[j] == if j < |hs| then hs[j] else None
  {
    if i < |hs| then hs[i := Some(h)]
    else hs + seq(i - |hs|, _ => None) + [Some(h)]
  }

  /**
   * A parsed worksheet: the column count from its range, the row-1 cells by column
   * index, and the records the parser made of the data rows.
   */
  datatype Worksheet = Worksheet(columnCount: nat, row1: map<nat, Cell>, records: seq<Record>)

  /**
   * The header array after the first `n` columns of row 1 have been visited. Its length is one
   * past the last visited column that has a cell; column i is a hole exactly when row 1 has no
   * cell there, and otherwise holds the header decoded from that very cell.
   */
  function HeadersUpTo(row1: map<nat, Cell>, host: Host, n: nat): (r: Result<seq<Option<Header>>, ApiError>)
    ensures r.Ok? <==> forall c :: 0 <= c < n && c in row1 ==> HeaderOf(Decode(row1[c], host)).Some?
    ensures r.Ok? ==> |r.value| <= n
    ensures r.Ok? ==> forall c :: 0 <= c < n && c in row1 ==> c < |r.value|
    ensures r.Ok? ==> forall c :: 0 <= c < |r.value| ==>
                        (r.value[c].Some? <==> c in row1)
                        && (c in row1 ==> r.value[c] == HeaderOf(Decode(row1[c], host)))
    ensures r.Ok? ==> r.value == [] || r.value[|r.value| - 1].Some?
    ensures r.Err? ==> r.error.UndefinedHeaderCell? && r.error.column < n && r.error.column in row1
                       && HeaderOf(Decode(row1[r.error.column], host)).None?
    decreases n
  {
    if n == 0 then Ok([])
    else
      match HeadersUpTo(row1, host, n - 1)
      case Err(e) => Err(e)
      case Ok(hs) =>
        if n - 1 !in row1 then Ok(hs)
        else
          match HeaderOf(Decode(row1[n - 1], host))
          case None => Err(UndefinedHeaderCell(n - 1))
          case Some(h) => Ok(Assign(hs, n - 1, h))
  }

  /** `extractHeaders(ws)`: visits columns 0 .. columnCount-1 of row 1 in order. */
  method ExtractHeaders(ws: Worksheet, host: Host) returns (r: Result<seq<Option<Header>>, ApiError>)
    ensures r == HeadersUpTo(ws.row1, host, ws.columnCount)
  {
    var header: seq<Option<Header>> := [];
    var columnCount := ws.columnCount;
    for i := 0 to columnCount
      invariant HeadersUpTo(ws.row1, host, i) == Ok(header)
    {
      if i in ws.row1 {
        var decodeColumn := Decode(ws.row1[i], host);
        match HeaderOf(decodeColumn) {
          case None =>
            ErrorPersists(ws.row1, host, i + 1, columnCount);
            return Err(UndefinedHeaderCell(i));
          case Some(h) =>
            header := Assign(header, i, h);
        }
      }
    }
    r := Ok(header);
  }

  /** Once a column throws, later columns are never reached. */
  lemma {:induction false} ErrorPersists(row1: map<nat, Cell>, host: Host, n: nat, m: nat)
    requires n <= m
    requires HeadersUpTo(row1, host, n).Err?
    ensures HeadersUpTo(row1, host, m) == HeadersUpTo(row1, host, n)
    decreases m - n
  {
    if n < m {
      ErrorPersists(row1, host, n, m - 1);
    }
  }

  datatype Sheet = Sheet(name: string, headers: seq<Option<Header>>, records: seq<Record>, active: bool)
  datatype Database = Database(documentId: string, sheets: seq<Sheet>)

  /** The parsed workbook: `SheetNames` in order and `Sheets` by name. */
  datatype Workbook = Workbook(sheetNames: seq<string>, worksheets: map<string, Worksheet>)

  /** `SheetNames.map(...)`: one inactive sheet per name, in order; the first failure aborts. */
  function SheetsOf(wb: Workbook, names: seq<string>, host: Host): (r: Result<seq<Sheet>, ApiError>)
    ensures r.Ok? ==> |r.value| == |names|
    ensures r.Err? && names != [] && names[0] !in wb.worksheets ==> r == Err(MissingWorksheet(names[0]))
    decreases |names|
  {
    if names == [] then Ok([])
    else if names[0] !in wb.worksheets then Err(MissingWorksheet(names[0]))
    else
      var ws := wb.worksheets[names[0]];
      match HeadersUpTo(ws.row1, host, ws.columnCount)
      case Err(e) => Err(e)
      case Ok(headers) =>
        match SheetsOf(wb, names[1..], host)
        case Err(e) => Err(e)
        case Ok(rest) => Ok([Sheet(names[0], headers, ws.records, false)] + rest)
  }

  /** `sheet` is the one built for `name`: that worksheet's records and extracted headers, inactive. */
  ghost predicate SheetFor(wb: Workbook, name: string, host: Host, sheet: Sheet) {
    && name in wb.worksheets
    && sheet.name == name
    && !sheet.active
    && sheet.records == wb.worksheets[name].records
    && Ok(sheet.headers) == HeadersUpTo(wb.worksheets[name].row1, host, wb.worksheets[name].columnCount)
  }

  /** The worksheet `name` exists and its headers extract without throwing. */
  ghost predicate Extracts(wb: Workbook, name: string, host: Host) {
    name in wb.worksheets && HeadersUpTo(wb.worksheets[name].row1, host, wb.worksheets[name].columnCount).Ok?
  }

  /** Each sheet is the named worksheet's, with its extracted headers; it fails iff some worksheet is missing or its headers throw. */
  lemma {:induction false} SheetsOfMeaning(wb: Workbook, names: seq<string>, host: Host)
    ensures var r := SheetsOf(wb, names, host);
            r.Ok? ==> forall i :: 0 <= i < |names| ==> SheetFor(wb, names[i], host, r.value[i])
    ensures SheetsOf(wb, names, host).Ok? <==> forall i :: 0 <= i < |names| ==> Extracts(wb, names[i], host)
    decreases |names|
  {
    if names != [] {
      var tail := names[1..];
      SheetsOfMeaning(wb, tail, host);
      assert forall i :: 1 <= i < |names| ==> names[i] == tail[i - 1];
      if Extracts(wb, names[0], host) {
        var ws := wb.worksheets[names[0]];
        var hs := HeadersUpTo(ws.row1, host, ws.columnCount);
        var r := SheetsOf(wb, tail, host);
        if r.Ok? {
          var sheets := [Sheet(names[0], hs.value, ws.records, false)] + r.value;
          assert SheetsOf(wb, names, host) == Ok(sheets);
          assert SheetFor(wb, names[0], host, sheets[0]);
          assert forall i :: 1 <= i < |names| ==> sheets[i] == r.value[i - 1];
        } else {
          var k :| 0 <= k < |tail| && !Extracts(wb, tail[k], host);
          assert names[k + 1] == tail[k];
        }
      }
    }
  }

  /**
   * The database `fetchDocument` resolves to, given the workbook the response parsed to
   * (None when the request failed). Any failure is caught and resolves to undefined (None).
   */
  function LoadDatabase(documentId: string, response: Option<Workbook>, host: Host): (r: Option<Database>)
    ensures r.Some? ==> r.value.documentId == documentId
    ensures r.Some? ==> response.Some? && |r.value.sheets| == |response.value.sheetNames|
    ensures r.Some? && response.Some? ==> forall i :: 0 <= i < |r.value.sheets| ==>
                          r.value.sheets[i].name == response.value.sheetNames[i] && !r.value.sheets[i].active
    ensures r.None? <==> response.None? || SheetsOf(response.value, response.value.sheetNames, host).Err?
  {
    match response
    case None => None
    case Some(wb) =>
      match SheetsOf(wb, wb.sheetNames, host)
      case Err(_) => None
      case Ok(sheets) =>
        SheetsOfMeaning(wb, wb.sheetNames, host);
        Some(Database(documentId, sheets))
  }
}
