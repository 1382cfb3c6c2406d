/**
 * The admin dashboard's table logic: the table configurations, the
 * filtered view (global search and per-column filters), the CSV export,
 * and the list updates after a delete or a save. The HTTP requests are not
 * modelled: their outcomes are parameters.
 */
module AdminTable {
  import opened Wrappers
  import opened JsString
  import opened Sequences

  /** `TableName`. */
  datatype TableName = Users | Reports | Rewards | CollectedWastes | Notifications | Transactions

  /** The `columns` of `TABLE_CONFIGS[t]`. */
  function Columns(t: TableName): (cols: seq<string>)
    ensures |cols| >= 4 && cols[0] == "id"
    ensures forall i :: 0 <= i < |cols| ==> cols[i] != "" && '\n' !in cols[i] && ',' !in cols[i]
  {
    match t
    case Users => ["id", "email", "name", "createAt"]
    case Reports => ["id", "location", "wasteType", "status", "createAt"]
    case Rewards => ["id", "userId", "points", "level", "createAt"]
    case CollectedWastes => ["id", "reportId", "status", "collectionDate"]
    case Notifications => ["id", "message", "type", "createAt"]
    case Transactions => ["id", "userId", "type", "amount", "description", "createAt"]
  }

  /**
   * A JSON value held by a row. `Num` carries the number's JavaScript
   * rendering (`String(n)`); `Obj` is an array or an object, with its
   * `JSON.stringify` text and its `String` text.
   */
  datatype JsValue = Null | Bool(b: bool) | Num(text: string) | Str(s: string) | Obj(json: string, shown: string)

  /** A row object; a key it lacks reads as `undefined`. */
  type Row = map<string, JsValue>

  /** An entry of `data`: a row, or a `null` or `undefined` entry (reading a key of it throws). */
  datatype Item = NullItem | Record(fields: Row)

  /** `item[key]`, with `None` for `undefined`. */
  function Get(fields: Row, key: string): (v: Option<JsValue>)
    ensures v.Some? <==> key in fields
    ensures v.Some? ==> v.value == fields[key]
  {
    if key in fields then Some(fields[key]) else None
  }

  /** `String(v)`. */
  function Display(v: JsValue): string
  {
    match v
    case Null => "null"
    case Bool(b) => if b then "true" else "false"
    case Num(text) => text
    case Str(s) => s
    case Obj(_, shown) => shown
  }

  /** JavaScript truthiness. */
  predicate Truthy(v: JsValue)
  {
    match v
    case Null => false
    case Bool(b) => b
    case Num(text) => text != "0" && text != "NaN"
    case Str(s) => s != ""
    case Obj(_, _) => true
  }

  /** `===` on values read from JSON: two objects read separately are never the same object. */
  predicate StrictEquals(a: JsValue, b: JsValue)
  {
    match (a, b)
    case (Null, Null) => true
    case (Bool(x), Bool(y)) => x == y
    case (Num(x), Num(y)) => x == y && x != "NaN"
    case (Str(x), Str(y)) => x == y
    case _ => false
  }

  /** `===` on possibly undefined values. */
  predicate SameValue(a: Option<JsValue>, b: Option<JsValue>)
  {
    (a.None? && b.None?) || (a.Some? && b.Some? && StrictEquals(a.value, b.value))
  }

  // ---------------------------------------------------------------------
  // filteredData
  // ---------------------------------------------------------------------

  /** The value under `key` is neither null nor undefined, and its lower-cased text includes `text` lower-cased. */
  predicate CellMatches(fields: Row, key: string, text: string)
  {
    key in fields && fields[key] != Null && Contains(Lower(Display(fields[key])), Lower(text))
  }

  /** The global search: some value of the row matches `term`. */
  predicate MatchesSearch(fields: Row, term: string)
  {
    exists key :: key in fields && CellMatches(fields, key, term)
  }

  /** The column filters: every non-empty filter matches its column. */
  predicate MatchesFilters(fields: Row, filters: map<string, string>)
  {
    forall key :: key in filters && filters[key] != "" ==> CellMatches(fields, key, filters[key])
  }

  /** An entry that `filteredData` keeps. */
  predicate Shown(item: Item, term: string, filters: map<string, string>)
  {
    item.Record? && MatchesSearch(item.fields, term) && MatchesFilters(item.fields, filters)
  }

  /** `filteredData`: the entries of `data` that pass the search and the filters, in order. */
  function FilteredData(data: seq<Item>, term: string, filters: map<string, string>): (r: seq<Item>)
    ensures IsSubsequence(r, data)
    ensures forall i :: 0 <= i < |r| ==> r[i].Record? && Shown(r[i], term, filters)
    ensures forall x :: x in r <==> x in data && Shown(x, term, filters)
    ensures |r| <= |data|
    // every shown entry keeps all its copies, every other entry loses them
    ensures forall x :: multiset(r)[x] == if Shown(x, term, filters) then multiset(data)[x] else 0
  {
    if data == [] then []
    else
      assert data == [data[0]] + data[1..];
      var rest := FilteredData(data[1..], term, filters);
      if Shown(data[0], term, filters) then [data[0]] + rest else rest
  }

  /** A row whose values are all null is never shown, whatever the search term. */
  lemma AllNullRowHidden(fields: Row, term: string, filters: map<string, string>)
    requires forall key :: key in fields ==> fields[key] == Null
    ensures !Shown(Record(fields), term, filters)
  {
  }

  /** With an empty search and no active filter, exactly the rows holding some non-null value are shown. */
  lemma {:induction false} EmptySearchShowsNonNullRows(item: Item, filters: map<string, string>)
    requires forall key :: key in filters ==> filters[key] == ""
    ensures Shown(item, "", filters) <==> item.Record? && exists key :: key in item.fields && item.fields[key] != Null
  {
    if item.Record? {
      forall key | key in item.fields && item.fields[key] != Null
        ensures CellMatches(item.fields, key, "")
      {
        ContainsEmpty(Lower(Display(item.fields[key])));
      }
    }
  }

  /** A filter set to "" has the same effect as no filter for that column. */
  lemma EmptyFilterIgnored(fields: Row, filters: map<string, string>, key: string)
    ensures MatchesFilters(fields, filters[key := ""]) == MatchesFilters(fields, filters - {key})
  {
    var with, without := filters[key := ""], filters - {key};
    assert forall k :: k in with && with[k] != "" <==> k in without && without[k] != "";
    assert forall k :: k in without ==> with[k] == without[k];
  }

  /** The search ignores the letter case of the term. */
  lemma SearchIgnoresCase(fields: Row, term: string)
    ensures MatchesSearch(fields, Lower(term)) == MatchesSearch(fields, term)
  {
    LowerIdempotent(term);
  }

  // ---------------------------------------------------------------------
  // handleExport
  // ---------------------------------------------------------------------

  /**
   * The CSV text of `item[col]`: objects (and `null`, whose `typeof` is
   * 'object') through `JSON.stringify`, `undefined` as `join` renders it,
   * anything else through `String`.
   */
  function Cell(v: Option<JsValue>): string
  {
    match v
    case None => ""
    case Some(Null) => "null"
    case Some(Obj(json, _)) => json
    case Some(x) => Display(x)
  }

  /** The cells of one row, in column order. */
  function Cells(cols: seq<string>, fields: Row): (r: seq<string>)
    ensures |r| == |cols|
    ensures forall i :: 0 <= i < |cols| ==> r[i] == Cell(Get(fields, cols[i]))
  {
    seq(|cols|, i requires 0 <= i < |cols| => Cell(Get(fields, cols[i])))
  }

  /** The data lines of the export; `None` where reading a column of a null entry throws. */
  function DataLines(cols: seq<string>, data: seq<Item>): (r: Option<seq<string>>)
    requires |cols| >= 1
    ensures r.Some? <==> forall i :: 0 <= i < |data| ==> data[i].Record?
    ensures r.Some? ==> |r.value| == |data|
    ensures r.Some? ==> forall i :: 0 <= i < |data| ==> r.value[i] == Join(Cells(cols, data[i].fields), ",")
  {
    if data == [] then Some([])
    else
      match data[0]
      case NullItem => None
      case Record(fields) =>
        match DataLines(cols, data[1..])
        case None => None
        case Some(rest) => Some([Join(Cells(cols, fields), ",")] + rest)
  }

  /** `handleExport`'s CSV text for table `t`; `None` when it throws on a null entry. */
  function Export(t: TableName, data: seq<Item>): (csv: Option<string>)
    ensures csv.Some? <==> forall i :: 0 <= i < |data| ==> data[i].Record?
  {
    match DataLines(Columns(t), data)
    case None => None
    case Some(lines) => Some(Join([Join(Columns(t), ",")] + lines, "\n"))
  }

  /** A join of parts and a separator none of which holds `c` does not hold `c`. */
  lemma {:induction false} JoinAvoids(parts: seq<string>, sep: string, c: char)
    requires c !in sep
    requires forall i :: 0 <= i < |parts| ==> c !in parts[i]
    ensures c !in Join(parts, sep)
  {
    if |parts| > 1 {
      JoinAvoids(parts[1..], sep, c);
    }
  }

  /** No value of any row renders with character `c`. */
  predicate NoCellHolds(data: seq<Item>, cols: seq<string>, c: char)
  {
    forall i, k :: 0 <= i < |data| && data[i].Record? && 0 <= k < |cols| ==>
      c !in Cell(Get(data[i].fields, cols[k]))
  }

  /**
   * The export has one line per row after the header line of column names,
   * each row's values in column order, provided no value holds a line break
   * (values are not quoted).
   */
  lemma ExportLines(t: TableName, data: seq<Item>)
    requires forall i :: 0 <= i < |data| ==> data[i].Record?
    requires NoCellHolds(data, Columns(t), '\n')
    ensures Export(t, data).Some?
    ensures |Split(Export(t, data).value, '\n')| == |data| + 1
    ensures Split(Export(t, data).value, '\n')[0] == Join(Columns(t), ",")
    ensures forall i :: 0 <= i < |data| ==>
      Split(Export(t, data).value, '\n')[i + 1] == Join(Cells(Columns(t), data[i].fields), ",")
  {
    var cols := Columns(t);
    var lines := DataLines(cols, data).value;
    var all := [Join(cols, ",")] + lines;
    JoinAvoids(cols, ",", '\n');
    forall i | 0 <= i < |data|
      ensures '\n' !in lines[i]
    {
      JoinAvoids(Cells(cols, data[i].fields), ",", '\n');
    }
    SplitJoin(all, '\n');
  }

  /** Within a line, splitting on commas gives the row's values back when none holds a comma. */
  lemma ExportLineCells(t: TableName, fields: Row)
    requires NoCellHolds([Record(fields)], Columns(t), ',')
    ensures Split(Join(Cells(Columns(t), fields), ","), ',') == Cells(Columns(t), fields)
  {
    var cells := Cells(Columns(t), fields);
    assert forall k :: 0 <= k < |cells| ==> ',' !in cells[k] by {
      forall k | 0 <= k < |cells| ensures ',' !in cells[k] {
        assert [Record(fields)][0].Record?;
      }
    }
    SplitJoin(cells, ',');
  }

  /** The cells of a user row whose email holds a line break. */
  lemma CellsOfBrokenEmail(fields: Row)
    requires fields == map["id" := Num("1"), "email" := Str("a\nb")]
    ensures Join(Cells(Columns(Users), fields), ",") == "1,a" + "\n" + "b,,"
  {
    var row := Cells(Columns(Users), fields);
    assert row == ["1", "a\nb", "", ""];
    assert Join(row[2..], ",") == ",";
    assert Join(row[1..], ",") == "a\nb,,";
  }

  /** The users table's header line. */
  lemma UsersHeader()
    ensures Join(Columns(Users), ",") == "id,email,name,createAt"
  {
    var cols := Columns(Users);
    assert cols == ["id", "email", "name", "createAt"];
    assert Join(cols[2..], ",") == "name,createAt";
  }

  /** The data lines of a one-row user table whose email holds a line break. */
  lemma DataLinesOfBrokenEmail(fields: Row)
    requires fields == map["id" := Num("1"), "email" := Str("a\nb")]
    ensures DataLines(Columns(Users), [Record(fields)]) == Some(["1,a" + "\n" + "b,,"])
  {
    var data := [Record(fields)];
    var line := Join(Cells(Columns(Users), fields), ",");
    CellsOfBrokenEmail(fields);
    assert data[1..] == [];
    assert DataLines(Columns(Users), data[1..]) == Some([]);
    assert [line] + [] == [line];
  }

  /** The export of a one-row user table whose email holds a line break. */
  lemma ExportOfBrokenEmail(fields: Row)
    requires fields == map["id" := Num("1"), "email" := Str("a\nb")]
    ensures Export(Users, [Record(fields)]) == Some("id,email,name,createAt" + "\n" + ("1,a" + "\n" + "b,,"))
  {
    var header := Join(Columns(Users), ",");
    var line := "1,a" + "\n" + "b,,";
    DataLinesOfBrokenEmail(fields);
    UsersHeader();
    assert [header] + [line] == [header, line];
    assert Join([header, line], "\n") == header + "\n" + Join([line], "\n");
  }

  /** A value holding a line break splits its row over two lines. */
  lemma ExportLineBreakInValue()
    ensures
      var data := [Record(map["id" := Num("1"), "email" := Str("a\nb")])];
      |Split(Export(Users, data).value, '\n')| == |data| + 2
  {
    var header := "id,email,name,createAt";
    ExportOfBrokenEmail(map["id" := Num("1"), "email" := Str("a\nb")]);
    SplitAtFirst(header, '\n', "1,a" + "\n" + "b,,");
    SplitAtFirst("1,a", '\n', "b,,");
    SplitWithout("b,,", '\n');
  }

  // ---------------------------------------------------------------------
  // handleDelete and handleSave
  // ---------------------------------------------------------------------

  /** The entry is a row whose `id` is `=== id`. */
  predicate HasId(item: Item, id: Option<JsValue>)
  {
    item.Record? && SameValue(Get(item.fields, "id"), id)
  }

  /** Number of entries with the given id. */
  function CountId(data: seq<Item>, id: Option<JsValue>): (n: nat)
    ensures n <= |data|
  {
    if data == [] then 0 else (if HasId(data[0], id) then 1 else 0) + CountId(data[1..], id)
  }

  /**
   * `data.filter(item => item.id !== id)`; `None` when an entry is null,
   * since reading its `id` throws.
   */
  function WithoutId(data: seq<Item>, id: Option<JsValue>): (r: Option<seq<Item>>)
    ensures r.Some? <==> forall i :: 0 <= i < |data| ==> data[i].Record?
    ensures r.Some? ==> IsSubsequence(r.value, data)
    ensures r.Some? ==> forall x :: x in r.value <==> x in data && !HasId(x, id)
    ensures r.Some? ==> |r.value| == |data| - CountId(data, id)
  {
    if data == [] then Some([])
    else
      match data[0]
      case NullItem => None
      case Record(_) =>
        match WithoutId(data[1..], id)
        case None => None
        case Some(rest) => Some(if HasId(data[0], id) then rest else [data[0]] + rest)
  }

  /** The outgoing body of `handleSave`: a truthy `createAt` is sent as `createdAt`. */
  function Payload(item: Row): (p: Row)
    ensures "createAt" in item && Truthy(item["createAt"]) ==>
      p.Keys == item.Keys - {"createAt"} + {"createdAt"} && p["createdAt"] == item["createAt"]
      && forall key :: key in item && key != "createAt" && key != "createdAt" ==> p[key] == item[key]
    ensures !("createAt" in item && Truthy(item["createAt"])) ==> p == item
  {
    if "createAt" in item && Truthy(item["createAt"]) then
      (item - {"createAt"})["createdAt" := item["createAt"]]
    else item
  }

  /**
   * `{...updatedItem, createAt: updatedItem.createdAt}`; an undefined
   * `createdAt` leaves `createAt` undefined, which is modelled as absent.
   */
  function FromServer(updated: Row): (r: Row)
    ensures Get(r, "createAt") == Get(updated, "createdAt")
    ensures forall key :: key != "createAt" ==> Get(r, key) == Get(updated, key)
  {
    if "createdAt" in updated then updated["createAt" := updated["createdAt"]]
    else updated - {"createAt"}
  }

  /**
   * `data.map(d => d.id === id ? replacement : d)`; `None` when an entry is
   * null, since reading its `id` throws.
   */
  function ReplaceId(data: seq<Item>, id: Option<JsValue>, replacement: Row): (r: Option<seq<Item>>)
    ensures r.Some? <==> forall i :: 0 <= i < |data| ==> data[i].Record?
    ensures r.Some? ==> |r.value| == |data|
    ensures r.Some? ==> forall i :: 0 <= i < |data| ==>
      r.value[i] == if HasId(data[i], id) then Record(replacement) else data[i]
  {
    if data == [] then Some([])
    else
      match data[0]
      case NullItem => None
      case Record(_) =>
        match ReplaceId(data[1..], id, replacement)
        case None => None
        case Some(rest) => Some([if HasId(data[0], id) then Record(replacement) else data[0]] + rest)
  }

  /** The admin dashboard's state. */
  class AdminDashboard {
    var selectedTable: TableName
    var data: seq<Item>
    var searchTerm: string
    var editingItem: Option<Row>
    var filters: map<string, string>

    /** The dashboard with table `t` loaded as `data`. */
    constructor (t: TableName, data: seq<Item>)
      ensures selectedTable == t && this.data == data
      ensures searchTerm == "" && editingItem.None? && filters == map[]
    {
      selectedTable := t;
      this.data := data;
      searchTerm := "";
      editingItem := None;
      filters := map[];
    }


    /** The filter input of a column header. */
    method SetFilter(column: string, value: string)
      modifies this
      ensures filters == old(filters)[column := value]
      ensures data == old(data) && selectedTable == old(selectedTable)
      ensures searchTerm == old(searchTerm) && editingItem == old(editingItem)
    {
      filters := filters[column := value];
    }

    /** `handleEdit`. */
    method Edit(item: Row)
      modifies this
      ensures editingItem == Some(item)
      ensures data == old(data) && selectedTable == old(selectedTable)
      ensures searchTerm == old(searchTerm) && filters == old(filters)
    {
      editingItem := Some(item);
    }

    /**
     * `handleDelete(id)`: when confirmed, sends the DELETE request and, if
     * the response is ok, drops the rows with that id. Returns the id the
     * request was sent for.
     */
    method Delete(id: Option<JsValue>, confirmed: bool, responseOk: bool) returns (sent: Option<Option<JsValue>>)
      modifies this
      ensures sent == if confirmed then Some(id) else None
      ensures confirmed && responseOk && WithoutId(old(data), id).Some? ==> data == WithoutId(old(data), id).value
      ensures !(confirmed && responseOk && WithoutId(old(data), id).Some?) ==> data == old(data)
      ensures selectedTable == old(selectedTable) && searchTerm == old(searchTerm)
      ensures editingItem == old(editingItem) && filters == old(filters)
    {
      sent := None;
      if !confirmed {
        return;
      }
      sent := Some(id);
      if !responseOk {
        return;
      }
      match WithoutId(data, id) {
        case None =>
        case Some(rest) =>
          data := rest;
      }
    }

    /**
     * `handleSave(item)`: sends `Payload(item)`; `response` is the updated
     * row the server returns, or `None` when the request or its body failed.
     * On success the rows with the item's id are replaced and editing ends.
     */
    method Save(item: Row, response: Option<Row>) returns (payload: Row)
      modifies this
      ensures payload == Payload(item)
      ensures response.Some? && ReplaceId(old(data), Get(item, "id"), FromServer(response.value)).Some? ==>
        data == ReplaceId(old(data), Get(item, "id"), FromServer(response.value)).value && editingItem.None?
      ensures !(response.Some? && ReplaceId(old(data), Get(item, "id"), FromServer(response.value)).Some?) ==>
        data == old(data) && editingItem == old(editingItem)
      ensures selectedTable == old(selectedTable) && searchTerm == old(searchTerm) && filters == old(filters)
    {
      payload := Payload(item);
      if response.None? {
        return;
      }
      match ReplaceId(data, Get(item, "id"), FromServer(response.value)) {
        case None =>
        case Some(updated) =>
          data := updated;
          editingItem := None;
      }
    }
  }
}
