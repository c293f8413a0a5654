/**
 * The history page of frontend/src/components/History.jsx: the filter record
 * and its two updaters, the query string sent to the server, the table's row
 * numbers and pager, the status labels, and the CSV export text.
 */
module HistoryPage {
  import opened Wrappers
  import opened Decimal
  import Store
  import Transform

  /** The page's `filters` state. Dates are the date inputs' text, "" when empty. */
  datatype Filters = Filters(status: string, startDate: string, endDate: string, limit: int, offset: int)

  const InitialFilters: Filters := Filters("ALL", "", "", 100, 0)

  /** The page sizes the page-size selector offers. */
  const LimitOptions: seq<int> := [50, 100, 200, 500]

  /** The keys `handleFilterChange` is called with, each with its new value. */
  datatype FilterChange =
    | SetStatus(status: string)
    | SetStartDate(startDate: string)
    | SetEndDate(endDate: string)
    | SetLimit(limit: int)

  /** `handleFilterChange(key, value)`: that key takes the value and the page goes back to the first. */
  function HandleFilterChange(f: Filters, change: FilterChange): (r: Filters)
    ensures r.offset == 0
    ensures r.status == (if change.SetStatus? then change.status else f.status)
    ensures r.startDate == (if change.SetStartDate? then change.startDate else f.startDate)
    ensures r.endDate == (if change.SetEndDate? then change.endDate else f.endDate)
    ensures r.limit == (if change.SetLimit? then change.limit else f.limit)
  {
    match change
    case SetStatus(s) => f.(status := s, offset := 0)
    case SetStartDate(d) => f.(startDate := d, offset := 0)
    case SetEndDate(d) => f.(endDate := d, offset := 0)
    case SetLimit(n) => f.(limit := n, offset := 0)
  }

  datatype Direction = Next | Prev

  /** `handlePagination(direction)`: one page on, or one page back but never before the first. */
  function HandlePagination(f: Filters, direction: Direction): (r: Filters)
    ensures r.status == f.status && r.startDate == f.startDate && r.endDate == f.endDate && r.limit == f.limit
    ensures direction == Next ==> r.offset == f.offset + f.limit
    ensures direction == Prev ==> r.offset == if f.offset - f.limit > 0 then f.offset - f.limit else 0
  {
    f.(offset := if direction == Next then f.offset + f.limit
                 else if 0 > f.offset - f.limit then 0 else f.offset - f.limit)
  }

  /**
   * The filters the page can reach: a page size from the selector and an
   * offset that is a non-negative whole number of pages.
   */
  predicate Reachable(f: Filters)
  {
    f.limit in LimitOptions && f.offset >= 0 && f.offset % f.limit == 0
  }

  lemma InitialReachable()
    ensures Reachable(InitialFilters)
  {
  }

  /** A filter change keeps the filters reachable when a new page size comes from the selector. */
  lemma FilterChangeStaysReachable(f: Filters, change: FilterChange)
    requires Reachable(f)
    requires change.SetLimit? ==> change.limit in LimitOptions
    ensures Reachable(HandleFilterChange(f, change))
  {
  }

  /** Paging keeps the filters reachable, so the offset never goes negative. */
  lemma PaginationStaysReachable(f: Filters, direction: Direction)
    requires Reachable(f)
    ensures Reachable(HandlePagination(f, direction))
  {
    var k := f.offset / f.limit;
    assert f.offset == k * f.limit;
    var g := HandlePagination(f, direction);
    if direction == Next {
      assert g.offset == (k + 1) * f.limit;
      WholePages(k + 1, f.limit);
    } else if k >= 1 {
      assert g.offset == (k - 1) * f.limit;
      WholePages(k - 1, f.limit);
    }
  }

  lemma WholePages(k: nat, limit: int)
    requires limit > 0
    ensures (k * limit) % limit == 0
  {
    var x := k * limit;
    var q, r := x / limit, x % limit;
    assert x == q * limit + r && 0 <= r < limit;
    var d := k - q;
    assert d * limit == r;
  }

  /** From any page but the first, going back and then on returns to the same page. */
  lemma PrevThenNext(f: Filters)
    requires Reachable(f) && f.offset > 0
    ensures HandlePagination(HandlePagination(f, Prev), Next) == f
  {
    var k := f.offset / f.limit;
    assert f.offset == k * f.limit;
    assert k >= 1;
  }

  /** Going on and then back always returns to the same page. */
  lemma NextThenPrev(f: Filters)
    requires Reachable(f)
    ensures HandlePagination(HandlePagination(f, Next), Prev) == f
  {
  }

  // ------------------------------------------------------------ query string

  /** The query-string keys the page sends. */
  datatype Key = StatusKey | StartDateKey | EndDateKey | LimitKey | OffsetKey

  function KeyName(k: Key): string
  {
    match k
    case StatusKey => "status"
    case StartDateKey => "startDate"
    case EndDateKey => "endDate"
    case LimitKey => "limit"
    case OffsetKey => "offset"
  }

  /** Distinct keys go out under distinct names, so no name is repeated in a query string without repeated keys. */
  lemma KeyNamesDistinct(a: Key, b: Key)
    ensures KeyName(a) == KeyName(b) <==> a == b
  {
  }

  /**
   * The value the server reads under `key` from the query string. For a key
   * that occurs once this is `req.query[key]`; the page never repeats a key.
   */
  function Lookup(params: seq<(Key, string)>, key: Key): Option<string>
  {
    if params == [] then None
    else if params[0].0 == key then Some(params[0].1)
    else Lookup(params[1..], key)
  }

  /** The value of the first pair under the key, and none when the key is absent. */
  lemma {:induction false} LookupIsFirst(params: seq<(Key, string)>, key: Key)
    ensures Lookup(params, key).None? <==> forall i :: 0 <= i < |params| ==> params[i].0 != key
    ensures Lookup(params, key).Some? ==>
              exists i :: && 0 <= i < |params| && params[i] == (key, Lookup(params, key).value)
                          && forall j :: 0 <= j < i ==> params[j].0 != key
  {
    if params != [] && params[0].0 != key {
      LookupIsFirst(params[1..], key);
      if Lookup(params, key).Some? {
        var i :| && 0 <= i < |params[1..]| && params[1..][i] == (key, Lookup(params, key).value)
                 && forall j :: 0 <= j < i ==> params[1..][j].0 != key;
        assert params[i + 1] == (key, Lookup(params, key).value);
        assert forall j :: 0 <= j < i + 1 ==> params[j].0 != key by {
          forall j | 0 <= j < i + 1 ensures params[j].0 != key {
            if j > 0 { assert params[j] == params[1..][j - 1]; }
          }
        }
      } else {
        assert forall i :: 0 <= i < |params| ==> params[i].0 != key by {
          forall i | 0 <= i < |params| ensures params[i].0 != key {
            if i > 0 { assert params[i] == params[1..][i - 1]; }
          }
        }
      }
    } else if params != [] {
      assert params[0] == (key, Lookup(params, key).value);
    }
  }

  /** Appending a pair changes the answer only for a key not yet present. */
  lemma {:induction false} LookupAppend(params: seq<(Key, string)>, key: Key, value: string, q: Key)
    ensures Lookup(params + [(key, value)], q) ==
            if Lookup(params, q).Some? then Lookup(params, q) else if key == q then Some(value) else None
  {
    if params != [] {
      assert (params + [(key, value)])[1..] == params[1..] + [(key, value)];
      LookupAppend(params[1..], key, value, q);
    }
  }

  lemma Appended(params: seq<(Key, string)>, key: Key, value: string)
    ensures forall q :: Lookup(params + [(key, value)], q) ==
              if Lookup(params, q).Some? then Lookup(params, q) else if key == q then Some(value) else None
  {
    forall q {
      LookupAppend(params, key, value, q);
    }
  }

  /** No key occurs twice. */
  predicate DistinctKeys(params: seq<(Key, string)>)
  {
    forall i, j :: 0 <= i < j < |params| ==> params[i].0 != params[j].0
  }

  /** Appending a key not yet present keeps the keys distinct. */
  lemma AppendFresh(params: seq<(Key, string)>, key: Key, value: string)
    requires DistinctKeys(params) && Lookup(params, key).None?
    ensures DistinctKeys(params + [(key, value)])
  {
    LookupIsFirst(params, key);
  }

  /**
   * The query string `fetchHistory` builds: the status unless it is 'ALL', each
   * date unless it is empty, then always the page size and the offset, which
   * the server's `parseInt` reads back unchanged.
   */
  method HistoryParams(f: Filters) returns (params: seq<(Key, string)>)
    ensures Lookup(params, StatusKey) == (if f.status != "ALL" then Some(f.status) else None)
    ensures Lookup(params, StartDateKey) == (if f.startDate != "" then Some(f.startDate) else None)
    ensures Lookup(params, EndDateKey) == (if f.endDate != "" then Some(f.endDate) else None)
    ensures Lookup(params, LimitKey) == Some(IntText(f.limit)) && ParseInt(IntText(f.limit)) == Some(f.limit)
    ensures Lookup(params, OffsetKey) == Some(IntText(f.offset)) && ParseInt(IntText(f.offset)) == Some(f.offset)
    ensures |params| <= 5
    ensures DistinctKeys(params)
  {
    params := [];
    if f.status != "ALL" {
      Appended(params, StatusKey, f.status);
      AppendFresh(params, StatusKey, f.status);
      params := params + [(StatusKey, f.status)];
    }
    if f.startDate != "" {
      Appended(params, StartDateKey, f.startDate);
      AppendFresh(params, StartDateKey, f.startDate);
      params := params + [(StartDateKey, f.startDate)];
    }
    if f.endDate != "" {
      Appended(params, EndDateKey, f.endDate);
      AppendFresh(params, EndDateKey, f.endDate);
      params := params + [(EndDateKey, f.endDate)];
    }
    Appended(params, LimitKey, IntText(f.limit));
    AppendFresh(params, LimitKey, IntText(f.limit));
    params := params + [(LimitKey, IntText(f.limit))];
    Appended(params, OffsetKey, IntText(f.offset));
    AppendFresh(params, OffsetKey, IntText(f.offset));
    params := params + [(OffsetKey, IntText(f.offset))];
    ParseIntText(f.limit);
    ParseIntText(f.offset);
  }

  /** The query string `fetchStatistics` builds: each date unless it is empty, nothing else. */
  method StatisticsParams(f: Filters) returns (params: seq<(Key, string)>)
    ensures Lookup(params, StartDateKey) == (if f.startDate != "" then Some(f.startDate) else None)
    ensures Lookup(params, EndDateKey) == (if f.endDate != "" then Some(f.endDate) else None)
    ensures forall i :: 0 <= i < |params| ==> params[i].0 in {StartDateKey, EndDateKey}
    ensures DistinctKeys(params)
  {
    params := [];
    if f.startDate != "" {
      AppendFresh(params, StartDateKey, f.startDate);
      params := params + [(StartDateKey, f.startDate)];
    }
    if f.endDate != "" {
      AppendFresh(params, EndDateKey, f.endDate);
      params := params + [(EndDateKey, f.endDate)];
    }
  }

  // ------------------------------------------------------------ table and pager

  /** The number in the first column of the row at `index` on the page. */
  function RowNumber(f: Filters, index: nat): int
  {
    f.offset + index + 1
  }

  /** The row shown at `index` is the one at position `RowNumber` (counted from 1) of all matching rows. */
  lemma RowNumberIsPosition(matching: seq<Store.Row>, f: Filters, index: nat)
    requires f.offset >= 0 && f.limit >= 0
    requires index < |Store.Page(matching, f.offset, f.limit)|
    ensures 1 <= RowNumber(f, index) <= |matching|
    ensures Store.Page(matching, f.offset, f.limit)[index] == matching[RowNumber(f, index) - 1]
  {
  }

  /** The end of "Menampilkan a - b dari total data": the smaller of the page end and the total. */
  function RangeEnd(f: Filters, total: int): (e: int)
    ensures e <= f.offset + f.limit && e <= total
    ensures e == f.offset + f.limit || e == total
  {
    if f.offset + f.limit < total then f.offset + f.limit else total
  }

  predicate PrevDisabled(f: Filters) { f.offset == 0 }

  predicate NextDisabled(p: Store.Pagination) { !p.hasMore }

  /** The back button is disabled exactly where pressing it would change nothing. */
  lemma PrevDisabledIsNoOp(f: Filters)
    requires Reachable(f)
    ensures PrevDisabled(f) <==> HandlePagination(f, Prev) == f
  {
    if f.offset > 0 {
      var k := f.offset / f.limit;
      assert f.offset == k * f.limit;
      assert k >= 1;
    }
  }

  /**
   * On a non-empty page the server returned for these filters, the last row's
   * number is the range end the pager shows, and the next button is enabled
   * exactly when the next page holds rows.
   */
  lemma PagerAgreesWithPage(matching: seq<Store.Row>, f: Filters)
    requires f.offset >= 0 && f.limit > 0 && f.offset < |matching|
    ensures var page := Store.Page(matching, f.offset, f.limit);
            && page != []
            && RowNumber(f, |page| - 1) == RangeEnd(f, |matching|)
            && (!NextDisabled(Store.Pagination(|matching|, f.limit, f.offset,
                                              Store.HasMore(f.offset, f.limit, |matching|)))
                <==> Store.Page(matching, f.offset + f.limit, f.limit) != [])
  {
  }

  // ------------------------------------------------------------ status labels

  datatype StatusOption = StatusOption(value: string, caption: string, icon: string)

  /** `statusOptions`, in their order on the page. */
  const StatusOptions: seq<StatusOption> := [
    StatusOption("ALL", "Semua Status", "\U{1F4CA}"),
    StatusOption("FULL", "Penuh", "\U{1F534}"),
    StatusOption("NEARLY_FULL", "Hampir Penuh", "\U{1F7E0}"),
    StatusOption("HALF_FULL", "Setengah Penuh", "\U{1F7E1}"),
    StatusOption("AVAILABLE", "Tersedia", "\U{1F7E2}")
  ]

  /** `statusOptions.find(opt => opt.value === status)`: the first option with that value. */
  function FindOption(options: seq<StatusOption>, status: string): (r: Option<StatusOption>)
    ensures r.None? <==> forall i :: 0 <= i < |options| ==> options[i].value != status
    ensures r.Some? ==> r.value in options && r.value.value == status
    ensures r.Some? ==> exists i :: && 0 <= i < |options| && options[i] == r.value
                                    && forall j :: 0 <= j < i ==> options[j].value != status
  {
    if options == [] then None
    else if options[0].value == status then Some(options[0])
    else FindOption(options[1..], status)
  }

  /** `getStatusLabel(status)`: icon and label for a known status, the raw text otherwise. */
  function StatusLabel(status: string): (r: string)
    ensures FindOption(StatusOptions, status).None? ==> r == status
    ensures FindOption(StatusOptions, status).Some? ==>
              var o := FindOption(StatusOptions, status).value;
              o.value == status && r == o.icon + " " + o.caption
  {
    var o := FindOption(StatusOptions, status);
    if o.Some? then o.value.icon + " " + o.value.caption else status
  }

  /**
   * Every status the server stores has an entry, whose label is shown; only the
   * placeholder `UNKNOWN` falls through to its raw name.
   */
  lemma StatusLabelsCover(s: Transform.Status)
    ensures FindOption(StatusOptions, Transform.StatusName(s)).Some? <==> s != Transform.Unknown
    ensures s == Transform.Unknown ==> StatusLabel(Transform.StatusName(s)) == "UNKNOWN"
  {
    var o := StatusOptions;
    var name := Transform.StatusName(s);
    if s == Transform.Unknown {
      assert forall i :: 0 <= i < |o| ==> |o[i].value| != |name|;
    } else {
      var i := match s
        case Full => 1
        case NearlyFull => 2
        case HalfFull => 3
        case _ => 4;
      assert o[i].value == name;
    }
  }

  // ------------------------------------------------------------------- CSV

  /** A history row as the page receives it; the DECIMAL distance arrives as text. */
  datatype HistoryItem = HistoryItem(createdAt: int, distance: string, capacity: int, status: string, robotOnline: bool)

  const CsvHeader: seq<string> := ["Tanggal", "Waktu", "Jarak (cm)", "Kapasitas (%)", "Status", "Robot Online"]

  /** `xs.join(sep)`: the first piece starts the text, and a single piece is the whole text. */
  function Join(xs: seq<string>, sep: char): (r: string)
    ensures xs != [] ==> xs[0] <= r
    ensures |xs| == 1 ==> r == xs[0]
    ensures xs == [] ==> r == ""
  {
    if xs == [] then "" else if |xs| == 1 then xs[0] else xs[0] + [sep] + Join(xs[1..], sep)
  }

  function IndexOf(s: string, c: char): (i: nat)
    requires c in s
    ensures i < |s| && s[i] == c && c !in s[..i]
  {
    if s[0] == c then 0 else IndexOf(s[1..], c) + 1
  }

  /** `s.split(sep)`, the reading a spreadsheet makes of the text: pieces free of the separator. */
  function Split(s: string, sep: char): (r: seq<string>)
    ensures |r| > 0
    ensures sep !in s ==> r == [s]
    ensures forall k :: 0 <= k < |r| ==> sep !in r[k]
    decreases |s|
  {
    if sep !in s then [s]
    else
      var i := IndexOf(s, sep);
      [s[..i]] + Split(s[i + 1..], sep)
  }

  lemma SplitAfterPiece(x: string, sep: char, rest: string)
    requires sep !in x
    ensures Split(x + [sep] + rest, sep) == [x] + Split(rest, sep)
  {
    var s := x + [sep] + rest;
    assert s[|x|] == sep;
    var i := IndexOf(s, sep);
    assert s[..i] == x;
    assert s[i + 1..] == rest;
  }

  /** Splitting the joined text gives back the pieces when no piece holds the separator. */
  lemma {:induction false} SplitJoin(xs: seq<string>, sep: char)
    requires |xs| > 0
    requires forall k :: 0 <= k < |xs| ==> sep !in xs[k]
    ensures Split(Join(xs, sep), sep) == xs
  {
    if |xs| > 1 {
      SplitJoin(xs[1..], sep);
      SplitAfterPiece(xs[0], sep, Join(xs[1..], sep));
    }
  }

  /** The six cells of one exported row; dates and times come from the locale formatters. */
  function CsvCells(item: HistoryItem, dateText: int -> string, timeText: int -> string): (r: seq<string>)
    ensures |r| == |CsvHeader|
    ensures r[..5] == [dateText(item.createdAt), timeText(item.createdAt), item.distance, IntText(item.capacity), item.status]
    ensures r[5] == (if item.robotOnline then "Ya" else "Tidak")
  {
    [dateText(item.createdAt), timeText(item.createdAt), item.distance, IntText(item.capacity), item.status,
     if item.robotOnline then "Ya" else "Tidak"]
  }

  function CsvRows(items: seq<HistoryItem>, dateText: int -> string, timeText: int -> string): (r: seq<seq<string>>)
    ensures |r| == |items|
    ensures forall k :: 0 <= k < |items| ==> r[k] == CsvCells(items[k], dateText, timeText)
  {
    if items == [] then [] else [CsvCells(items[0], dateText, timeText)] + CsvRows(items[1..], dateText, timeText)
  }

  /** Each row's cells joined by commas. */
  function JoinRows(rows: seq<seq<string>>): (r: seq<string>)
    ensures |r| == |rows|
    ensures forall k :: 0 <= k < |rows| ==> r[k] == Join(rows[k], ',')
  {
    if rows == [] then [] else [Join(rows[0], ',')] + JoinRows(rows[1..])
  }

  /** `exportToCSV`'s text: the header line, then one line per row, joined by line breaks. */
  function ExportCsv(items: seq<HistoryItem>, dateText: int -> string, timeText: int -> string): (r: string)
    ensures Join(CsvHeader, ',') <= r
    ensures items == [] ==> r == Join(CsvHeader, ',')
  {
    Join([Join(CsvHeader, ',')] + JoinRows(CsvRows(items, dateText, timeText)), '\n')
  }

  /** No cell holds a comma or a line break. */
  predicate Plain(cells: seq<string>)
  {
    forall k :: 0 <= k < |cells| ==> ',' !in cells[k] && '\n' !in cells[k]
  }

  lemma {:induction false} JoinHasNo(xs: seq<string>, sep: char, c: char)
    requires c != sep && forall k :: 0 <= k < |xs| ==> c !in xs[k]
    ensures c !in Join(xs, sep)
  {
    if |xs| > 1 {
      JoinHasNo(xs[1..], sep, c);
    }
  }

  lemma HeaderPlain()
    ensures Plain(CsvHeader)
  {
    forall k | 0 <= k < |CsvHeader| ensures ',' !in CsvHeader[k] && '\n' !in CsvHeader[k] {
      var h := CsvHeader[k];
      assert forall i :: 0 <= i < |h| ==> h[i] != ',' && h[i] != '\n';
    }
  }

  /**
   * A table of plain, non-empty rows written as comma-separated lines reads back
   * as the same header and rows.
   */
  lemma TableReadsBack(header: seq<string>, rows: seq<seq<string>>)
    requires |header| > 0 && Plain(header)
    requires forall k :: 0 <= k < |rows| ==> |rows[k]| > 0 && Plain(rows[k])
    ensures var lines := Split(Join([Join(header, ',')] + JoinRows(rows), '\n'), '\n');
            && |lines| == |rows| + 1
            && Split(lines[0], ',') == header
            && forall k :: 0 <= k < |rows| ==> Split(lines[k + 1], ',') == rows[k]
  {
    var ls := [Join(header, ',')] + JoinRows(rows);
    forall k | 0 <= k < |ls| ensures '\n' !in ls[k] {
      if k == 0 {
        JoinHasNo(header, ',', '\n');
      } else {
        assert ls[k] == Join(rows[k - 1], ',');
        JoinHasNo(rows[k - 1], ',', '\n');
      }
    }
    SplitJoin(ls, '\n');
    SplitJoin(header, ',');
    forall k | 0 <= k < |rows| ensures Split(ls[k + 1], ',') == rows[k] {
      SplitJoin(rows[k], ',');
    }
  }

  /**
   * When no cell holds a comma or a line break, the exported text reads back as
   * the header and then exactly one line per row, each with its six cells.
   */
  lemma CsvShape(items: seq<HistoryItem>, dateText: int -> string, timeText: int -> string)
    requires forall k :: 0 <= k < |items| ==> Plain(CsvCells(items[k], dateText, timeText))
    ensures var lines := Split(ExportCsv(items, dateText, timeText), '\n');
            && |lines| == |items| + 1
            && Split(lines[0], ',') == CsvHeader
            && forall k :: 0 <= k < |items| ==>
                 Split(lines[k + 1], ',') == CsvCells(items[k], dateText, timeText)
  {
    HeaderPlain();
    TableReadsBack(CsvHeader, CsvRows(items, dateText, timeText));
  }
}
