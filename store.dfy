/**
 * The persistence store of backend/database.js, read as a table of rows in
 * insertion order. `saveSensorData` appends to the table in place; the history,
 * statistics and latest-row queries are pure functions of the table, and the
 * methods that answer them build their WHERE clauses step by step as the SQL
 * text is built. A storage-layer failure is an input flag of each operation.
 */
module Store {
  import opened Wrappers
  import opened Transform

  /**
   * One row of `sensor_data`. `createdAt` is CURRENT_TIMESTAMP at the insert: a
   * reading of the database server's clock, which is not the backend's clock.
   */
  datatype Row = Row(id: int, distance: real, capacity: int, status: Status,
                     robotOnline: bool, createdAt: int)

  // ---------------------------------------------------------------- filtering

  /** The text with its trailing spaces removed. */
  function TrimEnd(s: string): (r: string)
    ensures r <= s
    ensures r == [] || r[|r| - 1] != ' '
    ensures forall i :: |r| <= i < |s| ==> s[i] == ' '
  {
    if s != [] && s[|s| - 1] == ' ' then TrimEnd(s[..|s| - 1]) else s
  }

  /**
   * Equality of two strings under the table's collation, utf8mb4_unicode_ci:
   * letter case does not matter, and neither do trailing spaces (PAD SPACE).
   */
  predicate CollatesEqual(a: string, b: string)
  {
    Upper(TrimEnd(a)) == Upper(TrimEnd(b))
  }

  /** A status name is its own upper case and has no trailing space. */
  lemma StatusNameIsCanonical(s: Status)
    ensures Upper(TrimEnd(StatusName(s))) == StatusName(s)
  {
    var n := StatusName(s);
    assert n[|n| - 1] != ' ';
    assert TrimEnd(n) == n;
    assert forall i :: 0 <= i < |n| ==> UpperChar(n[i]) == n[i];
    assert Upper(n) == n;
  }

  /**
   * `status = ?` on a stored row: the filter text matches a status exactly when,
   * upper-cased and without trailing spaces, it is that status's name.
   */
  lemma StatusFilterMeaning(s: Status, v: string)
    ensures CollatesEqual(StatusName(s), v) <==> Upper(TrimEnd(v)) == StatusName(s)
  {
    StatusNameIsCanonical(s);
  }

  /** A filter text that folds to "FULL" selects the FULL rows, and only them. */
  lemma FoldsToFull(v: string, r: Row)
    requires v != "" && v != "ALL" && Upper(TrimEnd(v)) == "FULL"
    ensures MatchesHistory(Some(v), None, None, r) <==> r.status == Full
  {
    StatusFilterMeaning(r.status, v);
    StatusNameInjective(r.status, Full);
  }

  /** `?status=full` and `?status=Full%20` select the FULL rows, and only them. */
  lemma StatusFilterIgnoresCaseAndPadding(r: Row)
    ensures MatchesHistory(Some("full"), None, None, r) <==> r.status == Full
    ensures MatchesHistory(Some("Full "), None, None, r) <==> r.status == Full
  {
    assert TrimEnd("full") == "full";
    assert Upper("full") == "FULL";
    FoldsToFull("full", r);
    assert TrimEnd("Full ") == "Full";
    assert Upper("Full") == "FULL";
    FoldsToFull("Full ", r);
  }

  /** One `AND ...` condition appended to `WHERE 1=1`. */
  datatype Clause = StatusIs(name: string) | CreatedFrom(t: int) | CreatedUntil(t: int)

  predicate Holds(c: Clause, r: Row)
  {
    match c
    case StatusIs(name) => CollatesEqual(StatusName(r.status), name)
    case CreatedFrom(t) => r.createdAt >= t
    case CreatedUntil(t) => r.createdAt <= t
  }

  predicate HoldsAll(cs: seq<Clause>, r: Row)
  {
    forall i :: 0 <= i < |cs| ==> Holds(cs[i], r)
  }

  /**
   * The conditions `getHistoryData` appends, in order, for a filter. The
   * clause list is the SQL text's view of the filter, `MatchesHistory` the
   * row's; `ConditionsMeaning` shows they agree.
   */
  function Conditions(status: Option<string>, startDate: Option<int>, endDate: Option<int>): seq<Clause>
  {
    (if StatusFilterOn(status) then [StatusIs(status.value)] else [])
    + (if startDate.Some? then [CreatedFrom(startDate.value)] else [])
    + (if endDate.Some? then [CreatedUntil(endDate.value)] else [])
  }

  /** The appended conditions keep exactly the rows the filter describes. */
  lemma ConditionsMeaning(status: Option<string>, startDate: Option<int>, endDate: Option<int>)
    ensures forall x :: HoldsAll(Conditions(status, startDate, endDate), x) <==> MatchesHistory(status, startDate, endDate, x)
  {
    var a := if StatusFilterOn(status) then [StatusIs(status.value)] else [];
    var b := if startDate.Some? then [CreatedFrom(startDate.value)] else [];
    var c := if endDate.Some? then [CreatedUntil(endDate.value)] else [];
    var cs := Conditions(status, startDate, endDate);
    forall x ensures HoldsAll(cs, x) <==> MatchesHistory(status, startDate, endDate, x) {
      assert cs == a + b + c;
      if HoldsAll(cs, x) {
        if StatusFilterOn(status) { assert cs[0] == StatusIs(status.value); }
        if startDate.Some? { assert cs[|a|] == CreatedFrom(startDate.value); }
        if endDate.Some? { assert cs[|a| + |b|] == CreatedUntil(endDate.value); }
      }
    }
  }

  /** The rows the WHERE clause keeps, in table order. */
  function Where(rows: seq<Row>, cs: seq<Clause>): (r: seq<Row>)
    ensures |r| <= |rows|
    ensures multiset(r) <= multiset(rows)
    ensures forall x :: x in r <==> x in rows && HoldsAll(cs, x)
    ensures forall x :: multiset(r)[x] == if HoldsAll(cs, x) then multiset(rows)[x] else 0
  {
    if rows == [] then []
    else
      assert rows == [rows[0]] + rows[1..];
      if HoldsAll(cs, rows[0]) then [rows[0]] + Where(rows[1..], cs)
      else Where(rows[1..], cs)
  }

  /** JavaScript's `status && status !== 'ALL'`: a status filter is applied. */
  predicate StatusFilterOn(status: Option<string>)
  {
    status.Some? && status.value != "" && status.value != "ALL"
  }

  /** The history filter read directly off the query's fields; both date bounds are inclusive. */
  predicate MatchesHistory(status: Option<string>, startDate: Option<int>, endDate: Option<int>, r: Row)
  {
    && (StatusFilterOn(status) ==> CollatesEqual(StatusName(r.status), status.value))
    && (startDate.Some? ==> startDate.value <= r.createdAt)
    && (endDate.Some? ==> r.createdAt <= endDate.value)
  }

  /**
   * The rows that match the history filter, in table order: the same filter as
   * `Where`, stated on the filter's fields rather than on a clause list.
   */
  function Matching(rows: seq<Row>, status: Option<string>, startDate: Option<int>, endDate: Option<int>): (r: seq<Row>)
    ensures multiset(r) <= multiset(rows)
    ensures forall x :: x in r <==> x in rows && MatchesHistory(status, startDate, endDate, x)
    ensures forall x :: multiset(r)[x] == if MatchesHistory(status, startDate, endDate, x) then multiset(rows)[x] else 0
  {
    if rows == [] then []
    else
      assert rows == [rows[0]] + rows[1..];
      if MatchesHistory(status, startDate, endDate, rows[0])
      then [rows[0]] + Matching(rows[1..], status, startDate, endDate)
      else Matching(rows[1..], status, startDate, endDate)
  }

  /** Two WHERE clauses that keep the same rows select the same sub-sequence. */
  lemma {:induction false} WhereIsMatching(rows: seq<Row>, cs: seq<Clause>,
                                           status: Option<string>, startDate: Option<int>, endDate: Option<int>)
    requires forall x :: HoldsAll(cs, x) <==> MatchesHistory(status, startDate, endDate, x)
    ensures Where(rows, cs) == Matching(rows, status, startDate, endDate)
  {
    if rows != [] {
      WhereIsMatching(rows[1..], cs, status, startDate, endDate);
    }
  }

  // ------------------------------------------------------------------ sorting

  datatype SortField = CreatedAt | Capacity | StatusColumn
  datatype SortOrder = Asc | Desc

  /** `allowedSortFields.includes(sortBy) ? sortBy : 'created_at'`, with the default `'created_at'`. */
  function SortFieldOf(sortBy: Option<string>): (f: SortField)
    ensures f == Capacity <==> sortBy == Some("capacity")
    ensures f == StatusColumn <==> sortBy == Some("status")
    ensures f == CreatedAt <==> sortBy != Some("capacity") && sortBy != Some("status")
  {
    if sortBy == Some("capacity") then Capacity
    else if sortBy == Some("status") then StatusColumn
    else CreatedAt
  }

  /**
   * `toUpperCase` on one character, for the characters that matter when the
   * result is compared with "ASC": ASCII letters, and U+017F (long s), whose
   * upper case is 'S'. Other characters are left as they are.
   */
  function UpperChar(c: char): char
  {
    if 'a' <= c <= 'z' then (c as int - 32) as char
    else if c == 'ſ' then 'S'
    else c
  }

  function Upper(s: string): (r: string)
    ensures |r| == |s|
    ensures forall i :: 0 <= i < |s| ==> r[i] == UpperChar(s[i])
  {
    if s == [] then [] else [UpperChar(s[0])] + Upper(s[1..])
  }

  /** The characters whose upper case is the letter `u`. */
  lemma UpperCharIs(c: char, u: char, lower: char)
    requires 'A' <= u <= 'Z' && lower == (u as int + 32) as char
    ensures UpperChar(c) == u <==> c == u || c == lower || (u == 'S' && c == 'ſ')
  {
  }

  /** The texts whose upper case is "ASC": "asc" in any letter case, the s possibly a long s. */
  lemma UpperIsAsc(s: string)
    ensures Upper(s) == "ASC" <==>
              && |s| == 3
              && (s[0] == 'a' || s[0] == 'A')
              && (s[1] == 's' || s[1] == 'S' || s[1] == 'ſ')
              && (s[2] == 'c' || s[2] == 'C')
  {
    if |s| == 3 {
      assert "ASC" == ['A', 'S', 'C'];
      assert Upper(s) == [UpperChar(s[0]), UpperChar(s[1]), UpperChar(s[2])];
      UpperCharIs(s[0], 'A', 'a');
      UpperCharIs(s[1], 'S', 's');
      UpperCharIs(s[2], 'C', 'c');
    }
  }

  /**
   * `sortOrder.toUpperCase() === 'ASC' ? 'ASC' : 'DESC'`, with the default
   * `'DESC'`: exactly the spellings of "asc" sort ascending.
   */
  function SortOrderOf(sortOrder: Option<string>): (o: SortOrder)
    ensures o == Asc <==>
              && sortOrder.Some? && |sortOrder.value| == 3
              && (sortOrder.value[0] == 'a' || sortOrder.value[0] == 'A')
              && (sortOrder.value[1] == 's' || sortOrder.value[1] == 'S' || sortOrder.value[1] == 'ſ')
              && (sortOrder.value[2] == 'c' || sortOrder.value[2] == 'C')
  {
    if sortOrder.Some? then
      UpperIsAsc(sortOrder.value);
      if Upper(sortOrder.value) == "ASC" then Asc else Desc
    else Desc
  }

  /**
   * The rank of a status name in the column's collation. The five names start
   * with five different letters, so the rank is the order of their first letters.
   */
  function StatusRank(s: Status): (k: int)
    ensures 0 <= k < 5 && StatusName(s)[0] == "AFHNU"[k]
  {
    match s
    case Available => 0
    case Full => 1
    case HalfFull => 2
    case NearlyFull => 3
    case Unknown => 4
  }

  lemma StatusRankIsNameOrder(a: Status, b: Status)
    ensures StatusRank(a) < StatusRank(b) <==> StatusName(a)[0] < StatusName(b)[0]
  {
  }

  function SortKey(r: Row, field: SortField): int
  {
    match field
    case CreatedAt => r.createdAt
    case Capacity => r.capacity
    case StatusColumn => StatusRank(r.status)
  }

  /** `a` may precede `b` under `ORDER BY field order`. */
  predicate InOrder(a: Row, b: Row, field: SortField, order: SortOrder)
  {
    if order == Asc then SortKey(a, field) <= SortKey(b, field)
    else SortKey(a, field) >= SortKey(b, field)
  }

  predicate SortedBy(s: seq<Row>, field: SortField, order: SortOrder)
  {
    forall i, j :: 0 <= i < j < |s| ==> InOrder(s[i], s[j], field, order)
  }

  function Insert(x: Row, s: seq<Row>, field: SortField, order: SortOrder): (r: seq<Row>)
    ensures multiset(r) == multiset(s) + multiset{x}
    ensures forall y :: y in r <==> y == x || y in s
  {
    if s == [] then [x]
    else if InOrder(x, s[0], field, order) then [x] + s
    else
      assert s == [s[0]] + s[1..];
      [s[0]] + Insert(x, s[1..], field, order)
  }

  lemma {:induction false} InsertSorted(x: Row, s: seq<Row>, field: SortField, order: SortOrder)
    requires SortedBy(s, field, order)
    ensures SortedBy(Insert(x, s, field, order), field, order)
  {
    if s != [] && !InOrder(x, s[0], field, order) {
      var rest := Insert(x, s[1..], field, order);
      InsertSorted(x, s[1..], field, order);
      forall y | y in rest ensures InOrder(s[0], y, field, order) {
        if y != x {
          var j :| 0 <= j < |s[1..]| && s[1..][j] == y;
          assert s[j + 1] == y;
        }
      }
      var r := [s[0]] + rest;
      forall i, j | 0 <= i < j < |r| ensures InOrder(r[i], r[j], field, order) {
        if i == 0 {
          assert r[j] == rest[j - 1];
          assert r[j] in rest;
        } else {
          assert r[i] == rest[i - 1] && r[j] == rest[j - 1];
        }
      }
    } else if s != [] {
      var r := [x] + s;
      forall i, j | 0 <= i < j < |r| ensures InOrder(r[i], r[j], field, order) {
        if i == 0 && j > 1 {
          assert InOrder(s[0], s[j - 1], field, order);
        }
      }
    }
  }

  /** An insertion sort: the `ORDER BY` of the history query. */
  function SortRows(s: seq<Row>, field: SortField, order: SortOrder): (r: seq<Row>)
    ensures SortedBy(r, field, order)
    ensures multiset(r) == multiset(s)
    ensures forall x :: x in r <==> x in s
  {
    if s == [] then []
    else
      assert s == [s[0]] + s[1..];
      InsertSorted(s[0], SortRows(s[1..], field, order), field, order);
      Insert(s[0], SortRows(s[1..], field, order), field, order)
  }

  /** `LIMIT limit OFFSET offset` */
  function Page(s: seq<Row>, offset: nat, limit: nat): (r: seq<Row>)
    ensures |r| <= limit
    ensures offset <= |s| ==> |r| == if offset + limit <= |s| then limit else |s| - offset
    ensures offset >= |s| ==> r == []
    ensures forall k :: 0 <= k < |r| ==> r[k] == s[offset + k]
    ensures forall x :: x in r ==> x in s
  {
    if offset >= |s| then []
    else if offset + limit <= |s| then s[offset..offset + limit]
    else s[offset..]
  }

  // ------------------------------------------------------------------ history

  /** The arguments of `getHistoryData`; `None` is an argument left undefined. */
  datatype HistoryFilter = HistoryFilter(status: Option<string>, startDate: Option<int>, endDate: Option<int>,
                                         limit: Option<int>, offset: Option<int>,
                                         sortBy: Option<string>, sortOrder: Option<string>)

  datatype Pagination = Pagination(total: nat, limit: int, offset: int, hasMore: bool)

  datatype HistoryResult = HistoryResult(data: seq<Row>, pagination: Pagination)

  function LimitOf(f: HistoryFilter): int { if f.limit.Some? then f.limit.value else 100 }

  function OffsetOf(f: HistoryFilter): int { if f.offset.Some? then f.offset.value else 0 }

  /** `(offset + limit) < total` */
  function HasMore(offset: int, limit: int, total: nat): (b: bool)
    ensures b <==> offset + limit < total
  {
    offset + limit < total
  }

  /** The last page: a page has more exactly when rows remain past its end. */
  lemma HasMoreMeansRowsRemain(s: seq<Row>, offset: nat, limit: nat)
    ensures HasMore(offset, limit, |s|) <==> offset + |Page(s, offset, limit)| < |s|
  {
  }

  // ------------------------------------------------------------------ latest

  /**
   * `ORDER BY created_at DESC LIMIT 1`: a row with the greatest `createdAt`;
   * among rows that share it, the last one inserted.
   */
  function LatestRow(rows: seq<Row>): (r: Option<Row>)
    ensures r.None? <==> rows == []
    ensures r.Some? ==> r.value in rows
    ensures r.Some? ==> forall x :: x in rows ==> x.createdAt <= r.value.createdAt
  {
    if rows == [] then None
    else
      var rest := LatestRow(rows[1..]);
      if rest.Some? && rest.value.createdAt >= rows[0].createdAt then rest else Some(rows[0])
  }

  /** When the clock never runs backwards, the latest row is the one appended last. */
  lemma {:induction false} LatestIsLastAppended(rows: seq<Row>)
    requires rows != []
    requires forall i, j :: 0 <= i < j < |rows| ==> rows[i].createdAt <= rows[j].createdAt
    ensures LatestRow(rows) == Some(rows[|rows| - 1])
  {
    if |rows| > 1 {
      LatestIsLastAppended(rows[1..]);
      assert rows[1..][|rows| - 2] == rows[|rows| - 1];
    }
  }

  /** A row appended no earlier on the clock than every other row becomes the latest. */
  lemma {:induction false} LatestAfterAppend(rows: seq<Row>, x: Row)
    requires forall y :: y in rows ==> y.createdAt <= x.createdAt
    ensures LatestRow(rows + [x]) == Some(x)
  {
    if rows != [] {
      assert (rows + [x])[1..] == rows[1..] + [x];
      LatestAfterAppend(rows[1..], x);
    }
  }

  // -------------------------------------------------------------- statistics

  /** The single row `getStatistics` returns; SQL's NULL is `None`. */
  datatype Statistics = Statistics(totalRecords: nat,
                                   fullCount: Option<nat>, nearlyFullCount: Option<nat>,
                                   halfFullCount: Option<nat>, availableCount: Option<nat>,
                                   avgCapacity: Option<real>, maxCapacity: Option<int>,
                                   minCapacity: Option<int>)

  /** The status column of the rows, in order. */
  function StatusesOf(rows: seq<Row>): (r: seq<Status>)
    ensures |r| == |rows|
    ensures forall i :: 0 <= i < |rows| ==> r[i] == rows[i].status
  {
    if rows == [] then [] else [rows[0].status] + StatusesOf(rows[1..])
  }

  /** `SUM(CASE WHEN status = s THEN 1 ELSE 0 END)`: how many rows have status `s`. */
  function CountStatus(rows: seq<Row>, s: Status): (n: nat)
    ensures n <= |rows|
    ensures n == multiset(StatusesOf(rows))[s]
  {
    if rows == [] then 0 else (if rows[0].status == s then 1 else 0) + CountStatus(rows[1..], s)
  }

  /** `SUM(capacity)` over the rows. */
  function SumCapacity(rows: seq<Row>): int
  {
    if rows == [] then 0 else rows[0].capacity + SumCapacity(rows[1..])
  }

  /** The sum grows by the capacity of each row added at the end, so it is the plain sum whatever the order of adding. */
  lemma {:induction false} SumCapacityAppend(rows: seq<Row>, x: Row)
    ensures SumCapacity(rows + [x]) == SumCapacity(rows) + x.capacity
  {
    if rows != [] {
      assert (rows + [x])[1..] == rows[1..] + [x];
      SumCapacityAppend(rows[1..], x);
    }
  }

  function MaxCapacity(rows: seq<Row>): (m: int)
    requires rows != []
    ensures forall x :: x in rows ==> x.capacity <= m
    ensures exists x :: x in rows && x.capacity == m
  {
    if |rows| == 1 then rows[0].capacity
    else
      var m := MaxCapacity(rows[1..]);
      if rows[0].capacity > m then rows[0].capacity else m
  }

  function MinCapacity(rows: seq<Row>): (m: int)
    requires rows != []
    ensures forall x :: x in rows ==> m <= x.capacity
    ensures exists x :: x in rows && x.capacity == m
  {
    if |rows| == 1 then rows[0].capacity
    else
      var m := MinCapacity(rows[1..]);
      if rows[0].capacity < m then rows[0].capacity else m
  }

  /** `COUNT(*)`, the four `SUM(CASE ...)`s, `AVG`, `MAX` and `MIN` over the selected rows. */
  function Summarize(rows: seq<Row>): (st: Statistics)
    ensures st.totalRecords == |rows|
    ensures rows == [] <==> st.fullCount.None?
    ensures rows == [] ==> st == Statistics(0, None, None, None, None, None, None, None)
    ensures rows != [] ==> && st.fullCount == Some(CountStatus(rows, Full))
                           && st.nearlyFullCount == Some(CountStatus(rows, NearlyFull))
                           && st.halfFullCount == Some(CountStatus(rows, HalfFull))
                           && st.availableCount == Some(CountStatus(rows, Available))
                           && st.maxCapacity == Some(MaxCapacity(rows))
                           && st.minCapacity == Some(MinCapacity(rows))
                           && st.avgCapacity == Some(SumCapacity(rows) as real / |rows| as real)
  {
    if rows == [] then Statistics(0, None, None, None, None, None, None, None)
    else Statistics(|rows|,
                    Some(CountStatus(rows, Full)), Some(CountStatus(rows, NearlyFull)),
                    Some(CountStatus(rows, HalfFull)), Some(CountStatus(rows, Available)),
                    Some(SumCapacity(rows) as real / |rows| as real),
                    Some(MaxCapacity(rows)), Some(MinCapacity(rows)))
  }

  lemma {:induction false} SumBetween(rows: seq<Row>, lo: int, hi: int)
    requires forall x :: x in rows ==> lo <= x.capacity <= hi
    ensures |rows| * lo <= SumCapacity(rows) <= |rows| * hi
  {
    if rows != [] {
      var rest := rows[1..];
      assert forall x :: x in rest ==> x in rows;
      SumBetween(rest, lo, hi);
      assert rows[0] in rows;
      OneMore(|rest|, lo);
      OneMore(|rest|, hi);
    }
  }

  lemma OneMore(n: int, a: int)
    ensures (n + 1) * a == n * a + a
  {
  }

  lemma {:induction false} StatusCountsAddUp(rows: seq<Row>)
    ensures CountStatus(rows, Full) + CountStatus(rows, NearlyFull) + CountStatus(rows, HalfFull)
            + CountStatus(rows, Available) + CountStatus(rows, Unknown) == |rows|
  {
    if rows != [] {
      StatusCountsAddUp(rows[1..]);
    }
  }

  /**
   * The aggregates are consistent: every column is NULL exactly when no row is
   * selected; otherwise the four status counts add up to at most the total
   * (to the total when no row is `Unknown`) and min <= avg <= max.
   */
  lemma SummarizeSound(rows: seq<Row>)
    ensures var st := Summarize(rows);
            && st.totalRecords == |rows|
            && (st.fullCount.None? <==> rows == [])
            && (st.nearlyFullCount.None? <==> rows == [])
            && (st.halfFullCount.None? <==> rows == [])
            && (st.availableCount.None? <==> rows == [])
            && (st.avgCapacity.None? <==> rows == [])
            && (st.maxCapacity.None? <==> rows == [])
            && (st.minCapacity.None? <==> rows == [])
            && (rows != [] ==>
                  && st.fullCount.value + st.nearlyFullCount.value + st.halfFullCount.value
                     + st.availableCount.value + CountStatus(rows, Unknown) == st.totalRecords
                  && st.minCapacity.value as real <= st.avgCapacity.value <= st.maxCapacity.value as real)
  {
    if rows != [] {
      StatusCountsAddUp(rows);
      var lo, hi := MinCapacity(rows), MaxCapacity(rows);
      SumBetween(rows, lo, hi);
      MeanBetween(SumCapacity(rows), |rows|, lo, hi);
    }
  }

  lemma MeanBetween(sum: int, n: nat, lo: int, hi: int)
    requires n > 0 && n * lo <= sum <= n * hi
    ensures lo as real <= sum as real / n as real <= hi as real
  {
    var avg := sum as real / n as real;
    assert avg * n as real == sum as real;
    assert (n * lo) as real == lo as real * n as real;
    assert (n * hi) as real == hi as real * n as real;
    ScaleBack(lo as real, avg, n as real);
    ScaleBack(avg, hi as real, n as real);
  }

  lemma ScaleBack(a: real, b: real, n: real)
    requires n > 0.0 && a * n <= b * n
    ensures a <= b
  {
  }

  /** The rows inside the inclusive date window. */
  function InWindow(rows: seq<Row>, startDate: Option<int>, endDate: Option<int>): (r: seq<Row>)
    ensures forall x :: x in r <==> && x in rows
                                     && (startDate.Some? ==> startDate.value <= x.createdAt)
                                     && (endDate.Some? ==> x.createdAt <= endDate.value)
  {
    Matching(rows, None, startDate, endDate)
  }

  // ------------------------------------------------------------------- table

  /** The largest magnitude a DECIMAL(5,2) column holds. */
  const DecimalMax: real := 999.99

  /** A value stored in a DECIMAL(5,2) column: rounded to cents, halves away from zero. */
  function ToCents(d: real): (r: real)
    ensures d - 0.005 <= r <= d + 0.005
  {
    if d >= 0.0 then
      var k := (d * 100.0 + 0.5).Floor;
      var r := k as real / 100.0;
      assert r * 100.0 == k as real;
      r
    else
      var k := (-d * 100.0 + 0.5).Floor;
      var r := -(k as real / 100.0);
      assert r * 100.0 == -(k as real);
      r
  }

  /** A DECIMAL(5,2) value is a whole number of cents. */
  lemma ToCentsOnGrid(d: real)
    ensures (ToCents(d) * 100.0).Floor as real == ToCents(d) * 100.0
  {
    if d >= 0.0 {
      var k := (d * 100.0 + 0.5).Floor;
      assert ToCents(d) * 100.0 == k as real;
    } else {
      var k := (-d * 100.0 + 0.5).Floor;
      assert ToCents(d) * 100.0 == (-k) as real;
    }
  }

  /** A reading already rounded to tenths is stored unchanged. */
  lemma TenthsStoreExactly(d: real)
    ensures ToCents(RoundTenth(d)) == RoundTenth(d)
  {
    var t := RoundTenth(d);
    var k := Round(d * 10.0);
    assert t == k as real / 10.0;
    assert t * 100.0 == (k * 10) as real;
    if t >= 0.0 {
      assert (t * 100.0 + 0.5).Floor == k * 10;
    } else {
      assert (-t * 100.0 + 0.5).Floor == -k * 10;
    }
  }

  /**
   * The `query += ' AND ...'` steps, as the SQL text is built (the function
   * `Conditions` is the same list, written at once), shared by the history, count and
   * statistics queries: a status condition unless the status is missing, empty
   * or 'ALL', then each date bound that is given.
   */
  method FilterClauses(status: Option<string>, startDate: Option<int>, endDate: Option<int>)
    returns (where: seq<Clause>)
    ensures forall x :: HoldsAll(where, x) <==> MatchesHistory(status, startDate, endDate, x)
  {
    where := [];
    if StatusFilterOn(status) {
      where := where + [StatusIs(status.value)];
    }
    if startDate.Some? {
      where := where + [CreatedFrom(startDate.value)];
    }
    if endDate.Some? {
      where := where + [CreatedUntil(endDate.value)];
    }
    assert where == Conditions(status, startDate, endDate);
    ConditionsMeaning(status, startDate, endDate);
  }

  class Table {
    /** The rows of `sensor_data`, in insertion order. */
    var rows: seq<Row>
    /** The table's AUTO_INCREMENT counter: the id the next insert receives. */
    var nextId: int

    ghost predicate Valid()
      reads this
    {
      && nextId >= 1
      && (forall i :: 0 <= i < |rows| ==> 1 <= rows[i].id < nextId)
      && (forall i, j :: 0 <= i < j < |rows| ==> rows[i].id < rows[j].id)
    }

    constructor ()
      ensures Valid() && rows == [] && nextId == 1
    {
      rows := [];
      nextId := 1;
    }

    /**
     * `saveSensorData`: one INSERT. It fails when the storage layer fails or,
     * under MySQL's default strict mode, when the distance does not fit
     * DECIMAL(5,2); then the table is unchanged.
     */
    method Save(distance: real, capacity: int, status: Status, robotOnline: bool, createdAt: int, fails: bool)
      returns (res: Result<int>)
      requires Valid()
      modifies this
      ensures Valid()
      ensures res.Ok? <==> !fails && -DecimalMax <= ToCents(distance) <= DecimalMax
      ensures res.Ok? ==> rows == old(rows) + [Row(res.value, ToCents(distance), capacity, status, robotOnline, createdAt)]
      ensures res.Ok? ==> forall x :: x in old(rows) ==> x.id < res.value
      ensures res.Ok? ==> res.value == old(nextId) && nextId == old(nextId) + 1
      ensures res.Err? ==> rows == old(rows) && nextId == old(nextId)
    {
      var stored := ToCents(distance);
      if fails {
        return Err("storage layer failure");
      }
      if stored < -DecimalMax || stored > DecimalMax {
        return Err("Out of range value for column 'distance'");
      }
      var id := nextId;
      rows := rows + [Row(id, stored, capacity, status, robotOnline, createdAt)];
      nextId := nextId + 1;
      res := Ok(id);
    }

    /**
     * `getHistoryData`: the page of matching rows in the requested order, and
     * the number of all matching rows. The SELECT and the COUNT build their
     * WHERE clauses separately, as the source does.
     */
    method GetHistoryData(f: HistoryFilter, fails: bool) returns (res: Result<HistoryResult>)
      ensures res.Err? <==> fails || LimitOf(f) < 0 || OffsetOf(f) < 0
      ensures res.Ok? ==>
                var matching := Matching(rows, f.status, f.startDate, f.endDate);
                && res.value.data == Page(SortRows(matching, SortFieldOf(f.sortBy), SortOrderOf(f.sortOrder)),
                                          OffsetOf(f), LimitOf(f))
                && res.value.pagination == Pagination(|matching|, LimitOf(f), OffsetOf(f),
                                                      OffsetOf(f) + LimitOf(f) < |matching|)
      ensures res.Ok? ==> |res.value.data| <= LimitOf(f)
      ensures res.Ok? ==> forall x :: x in res.value.data ==>
                            x in rows && MatchesHistory(f.status, f.startDate, f.endDate, x)
    {
      var limit := LimitOf(f);
      var offset := OffsetOf(f);
      var where := FilterClauses(f.status, f.startDate, f.endDate);
      var field := SortFieldOf(f.sortBy);
      var order := SortOrderOf(f.sortOrder);
      if fails || limit < 0 || offset < 0 {
        return Err("query failed");
      }
      WhereIsMatching(rows, where, f.status, f.startDate, f.endDate);
      var data := Page(SortRows(Where(rows, where), field, order), offset, limit);

      // the COUNT query repeats the same conditions
      var countWhere := FilterClauses(f.status, f.startDate, f.endDate);
      WhereIsMatching(rows, countWhere, f.status, f.startDate, f.endDate);
      var total := |Where(rows, countWhere)|;

      res := Ok(HistoryResult(data, Pagination(total, limit, offset, HasMore(offset, limit, total))));
    }

    /** `getStatistics`: the aggregates over the rows inside the inclusive date window. */
    method GetStatistics(startDate: Option<int>, endDate: Option<int>, fails: bool) returns (res: Result<Statistics>)
      ensures res.Err? <==> fails
      ensures res.Ok? ==> res.value == Summarize(InWindow(rows, startDate, endDate))
    {
      var where := FilterClauses(None, startDate, endDate);
      if fails {
        return Err("query failed");
      }
      WhereIsMatching(rows, where, None, startDate, endDate);
      res := Ok(Summarize(Where(rows, where)));
    }

    /** `getLatestData`: the latest row, `None` for an empty table. */
    method GetLatestData(fails: bool) returns (res: Result<Option<Row>>)
      ensures res.Err? <==> fails
      ensures res.Ok? ==> res.value == LatestRow(rows)
    {
      if fails {
        return Err("query failed");
      }
      res := Ok(LatestRow(rows));
    }
  }
}
