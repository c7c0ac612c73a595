/** The SQLite store of `database.py`: a `scraped_data` table with one row per URL, whose nine
    structured columns hold JSON text, and an append-only `scrape_history` table. */
module Store {
  import opened Wrappers
  import opened Seqs
  import opened JsonData

  /** The dict handed to `insert_data` and `update_data`. */
  type Record = map<string, Json>

  /** The structured columns, in the order the statements bind and `_deserialize_row` reads them. */
  const Columns: seq<string> :=
    ["emails", "phone_numbers", "social_links", "meta_info", "headers", "main_content", "contact_info", "images", "links"]

  /** The columns whose default is `{}`; every other column defaults to `[]`. */
  const ObjectColumns: set<string> := {"meta_info", "headers", "contact_info"}

  /** The value a column takes when the record lacks its key, and when the stored column is null or
      empty: the same for writing and for reading. */
  function Default(column: string): (j: Json)
    ensures j != JNull
  {
    if column in ObjectColumns then JObj(map[]) else JArr([])
  }

  /** `data.get(column, default)` */
  function Field(data: Record, column: string): Json {
    if column in data then data[column] else Default(column)
  }

  /** What a structured column holds: SQL `NULL`, the empty string, the JSON text of a value, or
      text that is not JSON. Only the third is ever written by this store. */
  datatype Cell = SqlNull | EmptyText | JsonText(value: Json) | OtherText(text: string)

  /** `json.dumps` */
  function Encode(value: Json): Cell {
    JsonText(value)
  }

  /** The values bound to the nine structured columns of an insert or an update. */
  function Cells(data: Record): (cells: map<string, Cell>)
    ensures forall c :: c in Columns ==> c in cells
  {
    map c | c in Columns :: Encode(Field(data, c))
  }

  /** `json.loads(cell) if cell else default` */
  function DecodeCell(column: string, cell: Cell): Result<Json, Error> {
    match cell
    case SqlNull => Success(Default(column))
    case EmptyText => Success(Default(column))
    case JsonText(v) => Success(v)
    case OtherText(t) => Failure(JsonDecodeError(t))
  }

  /** Decoding inverts encoding, null and empty columns decode to the column's default (never to
      `None`), and anything else raises. */
  lemma DecodeCellCases(column: string, cell: Cell, value: Json)
    ensures DecodeCell(column, Encode(value)) == Success(value)
    ensures cell.SqlNull? || cell.EmptyText? ==> DecodeCell(column, cell) == Success(Default(column)) && Default(column) != JNull
    ensures DecodeCell(column, cell).Failure? <==> cell.OtherText?
  {
  }

  /** The defaults: `{}` for `meta_info`, `headers` and `contact_info`, `[]` for the other six. */
  lemma Defaults()
    ensures forall c :: c in Columns && c in ObjectColumns ==> Default(c) == JObj(map[])
    ensures forall c :: c in Columns && c !in ObjectColumns ==> Default(c) == JArr([])
    ensures Default("social_links") == JArr([]) && Default("main_content") == JArr([])
    ensures Default("meta_info") == JObj(map[])
  {
  }

  datatype Row = Row(id: nat, url: string, cells: map<string, Cell>, scrapeDate: nat, lastUpdated: nat)

  datatype Attempt = Attempt(id: nat, url: string, scrapeDate: nat, status: string, errorMessage: Option<string>)

  /** A row as `_deserialize_row` returns it. */
  datatype Decoded = Decoded(id: nat, url: string, fields: map<string, Json>, scrapeDate: nat, lastUpdated: nat)

  predicate HasAllColumns(row: Row) {
    forall c :: c in Columns ==> c in row.cells
  }

  /** Decodes the listed columns in order; the first that is not JSON raises. */
  function DecodeColumns(cells: map<string, Cell>, columns: seq<string>): (r: Result<map<string, Json>, Error>)
    requires forall k :: 0 <= k < |columns| ==> columns[k] in cells
    ensures r.Success? ==> r.value.Keys == set c | c in columns
    ensures r.Success? ==> forall k :: 0 <= k < |columns| ==> DecodeCell(columns[k], cells[columns[k]]) == Success(r.value[columns[k]])
    ensures r.Failure? <==> exists k :: 0 <= k < |columns| && DecodeCell(columns[k], cells[columns[k]]).Failure?
  {
    if columns == [] then Success(map[])
    else
      var n := |columns| - 1;
      var c := columns[n];
      assert forall k :: 0 <= k < n ==> columns[..n][k] == columns[k];
      assert (set x | x in columns) == (set x | x in columns[..n]) + {c};
      match DecodeColumns(cells, columns[..n])
      case Failure(e) => Failure(e)
      case Success(m) =>
        match DecodeCell(c, cells[c])
        case Failure(e) => Failure(e)
        case Success(v) => Success(m[c := v])
  }

  /** `_deserialize_row` */
  function DeserializeRow(row: Row): Result<Decoded, Error>
    requires HasAllColumns(row)
  {
    match DecodeColumns(row.cells, Columns)
    case Failure(e) => Failure(e)
    case Success(fields) => Success(Decoded(row.id, row.url, fields, row.scrapeDate, row.lastUpdated))
  }

  /** The record's value for every column, defaults filled in. */
  function Fields(data: Record): map<string, Json> {
    map c | c in Columns :: Field(data, c)
  }

  /** A row written from a record decodes to the record's fields, with defaults for missing keys. */
  lemma {:induction false} DeserializeWritten(id: nat, url: string, data: Record, scrapeDate: nat, lastUpdated: nat)
    ensures HasAllColumns(Row(id, url, Cells(data), scrapeDate, lastUpdated))
    ensures DeserializeRow(Row(id, url, Cells(data), scrapeDate, lastUpdated))
            == Success(Decoded(id, url, Fields(data), scrapeDate, lastUpdated))
  {
    var cells := Cells(data);
    var r := DecodeColumns(cells, Columns);
    assert r.Success? by {
      forall k | 0 <= k < |Columns| ensures DecodeCell(Columns[k], cells[Columns[k]]).Success? {
        assert cells[Columns[k]] == Encode(Field(data, Columns[k]));
      }
    }
    var m := r.value;
    assert m == Fields(data) by {
      forall c | c in Columns ensures m[c] == Field(data, c) {
        var k :| 0 <= k < |Columns| && Columns[k] == c;
        assert DecodeCell(c, cells[c]) == Success(m[c]);
      }
    }
  }

  /** The row stored for a URL, if any. */
  function Lookup(rows: seq<Row>, url: string): (r: Option<Row>)
    ensures r.Some? ==> r.value in rows && r.value.url == url
    ensures r.None? <==> forall k :: 0 <= k < |rows| ==> rows[k].url != url
  {
    if rows == [] then None
    else if rows[0].url == url then Some(rows[0])
    else
      var r := Lookup(rows[1..], url);
      assert forall k :: 1 <= k < |rows| ==> rows[k] == rows[1..][k - 1];
      r
  }

  /** In a table of distinct URLs, the lookup finds the row with that URL. */
  lemma LookupFinds(rows: seq<Row>, i: nat)
    requires i < |rows|
    requires forall a, b :: 0 <= a < b < |rows| ==> rows[a].url != rows[b].url
    ensures Lookup(rows, rows[i].url) == Some(rows[i])
  {
    var r := Lookup(rows, rows[i].url);
    var k :| 0 <= k < |rows| && rows[k] == r.value;
    assert k == i;
  }

  /** `UPDATE scraped_data SET <columns>, last_updated WHERE url = ?` */
  function UpdateWhere(rows: seq<Row>, url: string, cells: map<string, Cell>, now: nat): (r: seq<Row>)
    ensures |r| == |rows|
    ensures forall k :: 0 <= k < |rows| ==> r[k] == if rows[k].url == url then rows[k].(cells := cells, lastUpdated := now) else rows[k]
  {
    seq(|rows|, k requires 0 <= k < |rows| => if rows[k].url == url then rows[k].(cells := cells, lastUpdated := now) else rows[k])
  }

  /** An update keeps every row's id, URL and scrape date, leaves other URLs' rows alone, and
      changes nothing when the URL is absent. */
  lemma UpdateKeepsIdentity(rows: seq<Row>, url: string, cells: map<string, Cell>, now: nat)
    ensures var r := UpdateWhere(rows, url, cells, now);
            forall k :: 0 <= k < |rows| ==> r[k].id == rows[k].id && r[k].url == rows[k].url && r[k].scrapeDate == rows[k].scrapeDate
    ensures var r := UpdateWhere(rows, url, cells, now);
            forall k :: 0 <= k < |rows| && rows[k].url != url ==> r[k] == rows[k]
    ensures Lookup(rows, url).None? ==> UpdateWhere(rows, url, cells, now) == rows
  {
  }

  /** An update of a present URL makes its lookup return the new columns and time. */
  lemma UpdateThenLookup(rows: seq<Row>, url: string, cells: map<string, Cell>, now: nat)
    requires forall a, b :: 0 <= a < b < |rows| ==> rows[a].url != rows[b].url
    requires Lookup(rows, url).Some?
    ensures Lookup(UpdateWhere(rows, url, cells, now), url) == Some(Lookup(rows, url).value.(cells := cells, lastUpdated := now))
  {
    var old_ := Lookup(rows, url).value;
    var i :| 0 <= i < |rows| && rows[i] == old_;
    var r := UpdateWhere(rows, url, cells, now);
    assert r[i].url == url;
    LookupFinds(r, i);
  }

  /** `ORDER BY last_updated DESC`, most recent first. */
  predicate SortedByRecency(rows: seq<Row>) {
    forall a, b :: 0 <= a < b < |rows| ==> rows[a].lastUpdated >= rows[b].lastUpdated
  }

  /** Puts a row before the first row that is not more recent than it. */
  function InsertByRecency(row: Row, sorted: seq<Row>): (r: seq<Row>)
    ensures multiset(r) == multiset(sorted) + multiset{row}
    ensures |r| == |sorted| + 1
    ensures forall k :: 0 <= k < |r| ==> r[k] == row || r[k] in sorted
  {
    if sorted == [] || row.lastUpdated >= sorted[0].lastUpdated then [row] + sorted
    else
      assert sorted == [sorted[0]] + sorted[1..];
      [sorted[0]] + InsertByRecency(row, sorted[1..])
  }

  lemma {:induction false} InsertByRecencySorted(row: Row, sorted: seq<Row>)
    requires SortedByRecency(sorted)
    ensures SortedByRecency(InsertByRecency(row, sorted))
  {
    if sorted != [] && row.lastUpdated < sorted[0].lastUpdated {
      var tail := sorted[1..];
      InsertByRecencySorted(row, tail);
      var r := InsertByRecency(row, tail);
      forall k | 0 <= k < |r| ensures r[k].lastUpdated <= sorted[0].lastUpdated {
        if r[k] != row {
          var j :| 0 <= j < |tail| && tail[j] == r[k];
          assert sorted[j + 1] == r[k];
        }
      }
    }
  }

  /** The listing order: rows of equal time keep their insertion order. */
  function SortByRecency(rows: seq<Row>): (r: seq<Row>)
    ensures multiset(r) == multiset(rows)
    ensures |r| == |rows|
    ensures forall k :: 0 <= k < |r| ==> r[k] in rows
  {
    if rows == [] then []
    else
      assert rows == [rows[0]] + rows[1..];
      InsertByRecency(rows[0], SortByRecency(rows[1..]))
  }

  /** The listing is most recent first and holds exactly the stored rows. */
  lemma {:induction false} SortByRecencySorted(rows: seq<Row>)
    ensures SortedByRecency(SortByRecency(rows))
    ensures multiset(SortByRecency(rows)) == multiset(rows)
  {
    if rows != [] {
      SortByRecencySorted(rows[1..]);
      InsertByRecencySorted(rows[0], SortByRecency(rows[1..]));
    }
  }

  /** `[self._deserialize_row(row) for row in rows]`: the first row that fails to decode raises. */
  function DeserializeAll(rows: seq<Row>): (r: Result<seq<Decoded>, Error>)
    requires forall k :: 0 <= k < |rows| ==> HasAllColumns(rows[k])
    ensures r.Success? ==> DecodesTo(rows, r.value)
  {
    if rows == [] then Success([])
    else
      var n := |rows| - 1;
      match DeserializeAll(rows[..n])
      case Failure(e) => Failure(e)
      case Success(prefix) =>
        match DeserializeRow(rows[n])
        case Failure(e) => Failure(e)
        case Success(d) =>
          DecodesToSnoc(rows, prefix, d);
          Success(prefix + [d])
  }

  /** Each of `rows` decodes to the entry of `ds` at the same position. */
  predicate DecodesTo(rows: seq<Row>, ds: seq<Decoded>)
    requires forall k :: 0 <= k < |rows| ==> HasAllColumns(rows[k])
  {
    |ds| == |rows| && forall k :: 0 <= k < |rows| ==> DeserializeRow(rows[k]) == Success(ds[k])
  }

  lemma DecodesToSnoc(rows: seq<Row>, prefix: seq<Decoded>, d: Decoded)
    requires rows != [] && forall k :: 0 <= k < |rows| ==> HasAllColumns(rows[k])
    requires DecodesTo(rows[..|rows| - 1], prefix) && DeserializeRow(rows[|rows| - 1]) == Success(d)
    ensures DecodesTo(rows, prefix + [d])
  {
    var n := |rows| - 1;
    assert forall k :: 0 <= k < n ==> rows[..n][k] == rows[k];
  }

  /** What `insert_data` makes of the record's URL on a table holding `rows`: the URL to insert, or
      the error the insert raises. A missing key raises before the database is reached; the database
      refuses a null URL, a URL that is neither text nor null, and a URL already stored. */
  function InsertCheck(rows: seq<Row>, data: Record): (r: Result<string, Error>)
    ensures "url" !in data ==> r == Failure(KeyError("url"))
    ensures "url" in data && data["url"] == JNull ==> r == Failure(IntegrityError("NOT NULL constraint failed: scraped_data.url"))
    ensures "url" in data && !data["url"].JStr? && data["url"] != JNull ==>
              r == Failure(InterfaceError("Error binding parameter 1: type not supported"))
    ensures "url" in data && data["url"].JStr? && Lookup(rows, data["url"].s).Some? ==>
              r == Failure(IntegrityError("UNIQUE constraint failed: scraped_data.url"))
    ensures r.Success? <==> "url" in data && data["url"].JStr? && Lookup(rows, data["url"].s).None?
    ensures r.Success? ==> r.value == data["url"].s
  {
    if "url" !in data then Failure(KeyError("url"))
    else
      match data["url"]
      case JStr(url) =>
        if Lookup(rows, url).Some? then Failure(IntegrityError("UNIQUE constraint failed: scraped_data.url"))
        else Success(url)
      case JNull => Failure(IntegrityError("NOT NULL constraint failed: scraped_data.url"))
      case _ => Failure(InterfaceError("Error binding parameter 1: type not supported"))
  }

  class Database {
    var rows: seq<Row>          // `scraped_data`, in insertion order
    var history: seq<Attempt>   // `scrape_history`, in insertion order
    var nextRowId: nat          // the AUTOINCREMENT counters
    var nextAttemptId: nat

    /** URLs are unique (`UNIQUE(url)`), ids grow in insertion order and stay below the counters,
        and every row has all nine structured columns. */
    ghost predicate Valid()
      reads this
    {
      && (forall a, b :: 0 <= a < b < |rows| ==> rows[a].url != rows[b].url && rows[a].id < rows[b].id)
      && (forall k :: 0 <= k < |rows| ==> 1 <= rows[k].id < nextRowId && HasAllColumns(rows[k]))
      && (forall a, b :: 0 <= a < b < |history| ==> history[a].id < history[b].id)
      && (forall k :: 0 <= k < |history| ==> 1 <= history[k].id < nextAttemptId)
      && 1 <= nextRowId && 1 <= nextAttemptId
    }

    /** `Database()`: both tables are dropped and created again, empty, with fresh counters. */
    constructor ()
      ensures Valid()
      ensures rows == [] && history == [] && nextRowId == 1 && nextAttemptId == 1
    {
      rows := [];
      history := [];
      nextRowId := 1;
      nextAttemptId := 1;
    }

    /** `log_scrape_attempt`: appends one history entry and touches nothing else. */
    method LogScrapeAttempt(url: string, status: string, errorMessage: Option<string>, now: nat)
      requires Valid()
      modifies this
      ensures Valid()
      ensures history == old(history) + [Attempt(old(nextAttemptId), url, now, status, errorMessage)]
      ensures nextAttemptId == old(nextAttemptId) + 1
      ensures rows == old(rows) && nextRowId == old(nextRowId)
    {
      history := history + [Attempt(nextAttemptId, url, now, status, errorMessage)];
      nextAttemptId := nextAttemptId + 1;
    }

    /** `insert_data`: a URL that `InsertCheck` accepts gets one new row whose two timestamps are
        equal; otherwise the insert raises what `InsertCheck` says and the table stays as it was. */
    method InsertData(data: Record, now: nat) returns (r: Result<(), Error>)
      requires Valid()
      modifies this
      ensures Valid()
      ensures history == old(history) && nextAttemptId == old(nextAttemptId)
      ensures r.Failure? <==> InsertCheck(old(rows), data).Failure?
      ensures r.Failure? ==> r.error == InsertCheck(old(rows), data).error && rows == old(rows) && nextRowId == old(nextRowId)
      ensures r.Success? ==> && rows == old(rows) + [Row(old(nextRowId), InsertCheck(old(rows), data).value, Cells(data), now, now)]
                             && nextRowId == old(nextRowId) + 1
    {
      var check := InsertCheck(rows, data);
      if check.Failure? {
        return Failure(check.error);
      }
      rows := rows + [Row(nextRowId, check.value, Cells(data), now, now)];
      nextRowId := nextRowId + 1;
      return Success(());
    }

    /** `update_data`: rewrites the nine columns and `last_updated` of the row for `url`, if there
        is one. */
    method UpdateData(url: string, data: Record, now: nat)
      requires Valid()
      modifies this
      ensures Valid()
      ensures rows == UpdateWhere(old(rows), url, Cells(data), now)
      ensures history == old(history) && nextRowId == old(nextRowId) && nextAttemptId == old(nextAttemptId)
    {
      rows := UpdateWhere(rows, url, Cells(data), now);
    }

    /** `fetch_data`: the decoded row for `url`, or `None`. */
    method FetchData(url: string) returns (r: Result<Option<Decoded>, Error>)
      requires Valid()
      ensures Lookup(rows, url).None? ==> r == Success(None)
      ensures Lookup(rows, url).Some? ==>
                match DeserializeRow(Lookup(rows, url).value)
                case Success(d) => r == Success(Some(d))
                case Failure(e) => r == Failure(e)
    {
      var row := Lookup(rows, url);
      if row.None? {
        return Success(None);
      }
      var decoded := DeserializeRow(row.value);
      match decoded {
        case Success(d) => r := Success(Some(d));
        case Failure(e) => r := Failure(e);
      }
    }

    /** The listing of the table: every row, most recently updated first, decoded in that order. */
    ghost function Listing(): Result<seq<Decoded>, Error>
      reads this
      requires Valid()
    {
      DeserializeAll(SortByRecency(rows))
    }

    /** `fetch_all_data` */
    method FetchAllData() returns (r: Result<seq<Decoded>, Error>)
      requires Valid()
      ensures r == Listing()
    {
      var sorted := SortByRecency(rows);
      var decoded: seq<Decoded> := [];
      for i := 0 to |sorted|
        invariant DeserializeAll(sorted[..i]) == Success(decoded)
      {
        DeserializeAllStep(sorted, i);
        var d := DeserializeRow(sorted[i]);
        if d.Failure? {
          DeserializeAllFailureSticks(sorted, i + 1);
          return Failure(d.error);
        }
        decoded := decoded + [d.value];
      }
      PrefixAll(sorted);
      return Success(decoded);
    }
  }

  lemma DeserializeAllStep(rows: seq<Row>, i: nat)
    requires forall k :: 0 <= k < |rows| ==> HasAllColumns(rows[k])
    requires i < |rows| && DeserializeAll(rows[..i]).Success?
    ensures DeserializeAll(rows[..i + 1]) == match DeserializeRow(rows[i])
                                             case Failure(e) => Failure(e)
                                             case Success(d) => Success(DeserializeAll(rows[..i]).value + [d])
  {
    PrefixSnoc(rows, i);
  }

  lemma {:induction false} DeserializeAllFailureSticks(rows: seq<Row>, i: nat)
    requires forall k :: 0 <= k < |rows| ==> HasAllColumns(rows[k])
    requires i <= |rows| && DeserializeAll(rows[..i]).Failure?
    ensures DeserializeAll(rows) == DeserializeAll(rows[..i])
    decreases |rows| - i
  {
    if i < |rows| {
      PrefixSnoc(rows, i);
      DeserializeAllFailureSticks(rows, i + 1);
    } else {
      PrefixAll(rows);
    }
  }

  /** After a successful insert, fetching the URL returns the record's fields with defaults filled
      in, the new id and the insert time twice. */
  lemma InsertThenFetch(rows: seq<Row>, id: nat, url: string, data: Record, now: nat)
    requires forall a, b :: 0 <= a < b < |rows| ==> rows[a].url != rows[b].url
    requires Lookup(rows, url).None?
    ensures Lookup(rows + [Row(id, url, Cells(data), now, now)], url) == Some(Row(id, url, Cells(data), now, now))
    ensures DeserializeRow(Row(id, url, Cells(data), now, now)) == Success(Decoded(id, url, Fields(data), now, now))
  {
    var all := rows + [Row(id, url, Cells(data), now, now)];
    LookupFinds(all, |rows|);
    DeserializeWritten(id, url, data, now, now);
  }
}
