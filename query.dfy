/** GET /data: build the SELECT statement and its parameter list from the
    optional `origin` and `date` filters, and give that statement a meaning
    over the table's rows. */
module Query {
  import opened Wrappers
  import opened Text
  import opened Store

  /** The statement without a filter: the four columns, then the table. It is
      spelled as two literals so that each part is short enough for the
      verifier to inspect character by character. */
  const SelectAll := "SELECT id, origin, mime_data, datetime" + " FROM received_data"
  const WhereKeyword := " WHERE "
  const AndKeyword := " AND "

  /** The two columns a filter can test. */
  datatype Column = OriginColumn | DateColumn

  /** The left-hand side a condition compares: the column itself, or the
      calendar date SQLite's DATE() takes from it. */
  function Operand(c: Column): string {
    match c
    case OriginColumn => "origin"
    case DateColumn => "DATE(datetime)"
  }

  /** The condition pushed for a column, `origin = ?` or `DATE(datetime) = ?`;
      its one `?` stands for the value. */
  function ClauseText(c: Column): string {
    Operand(c) + " = ?"
  }

  function ClauseTexts(cols: seq<Column>): (r: seq<string>)
    ensures |r| == |cols|
    ensures forall k :: 0 <= k < |cols| ==> r[k] == ClauseText(cols[k])
  {
    seq(|cols|, k requires 0 <= k < |cols| => ClauseText(cols[k]))
  }

  /** SQLite's `DATE(datetime)` on a stored `toISOString()` value
      (`YYYY-MM-DDTHH:MM:SS.sssZ`): its first ten characters. A text too short
      to hold a date gives NULL, which equals nothing. */
  function DatePart(datetime: string): (r: Option<string>)
    ensures r.Some? <==> |datetime| >= 10
    ensures r.Some? ==> |r.value| == 10 && IsPrefix(r.value, datetime)
  {
    if |datetime| >= 10 then Some(datetime[..10]) else None
  }

  predicate IsDigit(ch: char) {
    '0' <= ch <= '9'
  }

  /** `s` has the shape `toISOString()` gives: `YYYY-MM-DDTHH:MM:SS.sssZ`,
      a four-digit year and every other field zero-padded. */
  predicate IsIsoTimestamp(s: string) {
    && |s| == 24
    && IsDigit(s[0]) && IsDigit(s[1]) && IsDigit(s[2]) && IsDigit(s[3]) && s[4] == '-'
    && IsDigit(s[5]) && IsDigit(s[6]) && s[7] == '-'
    && IsDigit(s[8]) && IsDigit(s[9]) && s[10] == 'T'
    && IsDigit(s[11]) && IsDigit(s[12]) && s[13] == ':'
    && IsDigit(s[14]) && IsDigit(s[15]) && s[16] == ':'
    && IsDigit(s[17]) && IsDigit(s[18]) && s[19] == '.'
    && IsDigit(s[20]) && IsDigit(s[21]) && IsDigit(s[22]) && s[23] == 'Z'
  }

  /** The condition on column `c`, with `value` bound to its placeholder,
      holds of `row`. */
  predicate Holds(c: Column, value: string, row: Record) {
    match c
    case OriginColumn => row.origin == value
    case DateColumn => DatePart(row.datetime) == Some(value)
  }

  /** Every condition holds of `row`, the k-th bound to the k-th parameter. */
  predicate SatisfiesAll(cols: seq<Column>, params: seq<string>, row: Record)
    requires |cols| == |params|
  {
    forall k :: 0 <= k < |cols| ==> Holds(cols[k], params[k], row)
  }

  function Prepend(c: Column, rest: Option<seq<Column>>): Option<seq<Column>> {
    match rest
    case None => None
    case Some(cs) => Some([c] + cs)
  }

  /** Reads a conjunction of conditions joined by " AND " back into the
      columns it tests; None for any other text. */
  function ParseConjunction(s: string): Option<seq<Column>>
    decreases |s|
  {
    var origin, date := ClauseText(OriginColumn), ClauseText(DateColumn);
    if s == origin then Some([OriginColumn])
    else if s == date then Some([DateColumn])
    else if IsPrefix(origin + AndKeyword, s) then
      Prepend(OriginColumn, ParseConjunction(s[|origin + AndKeyword|..]))
    else if IsPrefix(date + AndKeyword, s) then
      Prepend(DateColumn, ParseConjunction(s[|date + AndKeyword|..]))
    else None
  }

  /** Reads a statement of the shape this handler builds into the columns its
      WHERE clause tests (none when there is no WHERE clause); None for a text
      of any other shape, which this model does not interpret. */
  function ParseSelect(sql: string): Option<seq<Column>> {
    if sql == SelectAll then Some([])
    else if IsPrefix(SelectAll + WhereKeyword, sql) then
      ParseConjunction(sql[|SelectAll + WhereKeyword|..])
    else None
  }

  /** The rows that satisfy every bound condition, in table order. */
  function KeepRows(rows: seq<Record>, cols: seq<Column>, params: seq<string>): (r: seq<Record>)
    requires |cols| == |params|
    ensures |r| <= |rows|
    ensures forall x :: x in r <==> x in rows && SatisfiesAll(cols, params, x)
  {
    if rows == [] then []
    else (if SatisfiesAll(cols, params, rows[0]) then [rows[0]] else [])
         + KeepRows(rows[1..], cols, params)
  }

  /** What `db.all(sql, params)` returns on the rows of the table: the rows
      the WHERE clause selects, or None when the statement is not one this
      model reads or its placeholders and parameters do not pair up. */
  function Select(rows: seq<Record>, sql: string, params: seq<string>): (r: Option<seq<Record>>)
    ensures r.Some? <==> ParseSelect(sql).Some? && |ParseSelect(sql).value| == |params|
    ensures r.Some? ==> |r.value| <= |rows|
    ensures r.Some? ==> forall x :: x in r.value <==> x in rows && SatisfiesAll(ParseSelect(sql).value, params, x)
  {
    match ParseSelect(sql)
    case None => None
    case Some(cols) => if |cols| == |params| then Some(KeepRows(rows, cols, params)) else None
  }

  /** The request's filter, stated on a row: its origin is the origin asked
      for, if one is, and its calendar date is the date asked for, if one is.
      An empty query value asks for nothing. */
  predicate MatchesFilter(row: Record, origin: Option<string>, date: Option<string>) {
    && (Truthy(origin) ==> row.origin == origin.value)
    && (Truthy(date) ==> DatePart(row.datetime) == Some(date.value))
  }

  /** The rows that match the request's filter, in table order. */
  function Matching(rows: seq<Record>, origin: Option<string>, date: Option<string>): (r: seq<Record>)
    ensures |r| <= |rows|
    ensures forall x :: x in r <==> x in rows && MatchesFilter(x, origin, date)
  {
    if rows == [] then []
    else (if MatchesFilter(rows[0], origin, date) then [rows[0]] else [])
         + Matching(rows[1..], origin, date)
  }

  /** The columns the handler filters on, origin first. */
  function FilterColumns(origin: Option<string>, date: Option<string>): seq<Column> {
    (if Truthy(origin) then [OriginColumn] else []) + (if Truthy(date) then [DateColumn] else [])
  }

  /** The parameter values the handler binds, in the same order. */
  function FilterValues(origin: Option<string>, date: Option<string>): seq<string> {
    (if Truthy(origin) then [origin.value] else []) + (if Truthy(date) then [date.value] else [])
  }

  /** Builds the statement and its parameters for the filters given. */
  method BuildQuery(origin: Option<string>, date: Option<string>) returns (sql: string, params: seq<string>)
    ensures params == FilterValues(origin, date)
    ensures ParseSelect(sql) == Some(FilterColumns(origin, date))
    ensures Occurrences(sql, '?') == |params|
    ensures !Truthy(origin) && !Truthy(date) ==> sql == SelectAll && params == []
    ensures Truthy(origin) && Truthy(date) ==>
      && sql == SelectAll + WhereKeyword + ClauseText(OriginColumn) + AndKeyword + ClauseText(DateColumn)
      && params == [origin.value, date.value]
    ensures forall rows :: Select(rows, sql, params) == Some(Matching(rows, origin, date))
  {
    sql := SelectAll;
    params := [];
    var conditions: seq<string> := [];
    ghost var cols: seq<Column> := [];

    if Truthy(origin) {
      conditions := conditions + [ClauseText(OriginColumn)];
      params := params + [origin.value];
      cols := cols + [OriginColumn];
    }

    if Truthy(date) {
      conditions := conditions + [ClauseText(DateColumn)];
      params := params + [date.value];
      cols := cols + [DateColumn];
    }

    assert cols == FilterColumns(origin, date) && params == FilterValues(origin, date);
    assert conditions == ClauseTexts(cols);
    if |conditions| > 0 {
      sql := sql + WhereKeyword + Join(conditions, AndKeyword);
    }
    assert sql == StatementFor(cols);
    ParseStatementRoundTrip(cols);
    StatementPlaceholders(cols);
    if Truthy(origin) && Truthy(date) {
      assert cols == [OriginColumn, DateColumn];
      BothFiltersStatement();
    }
    SelectBuiltStatementAll(origin, date);
  }

  /** The text the handler builds for the filters given: the bare SELECT, with
      the joined conditions after " WHERE " when there are any. */
  function StatementFor(cols: seq<Column>): string {
    if cols == [] then SelectAll else SelectAll + WhereKeyword + Join(ClauseTexts(cols), AndKeyword)
  }

  /** A built statement reads back as the columns it was built from. */
  lemma ParseStatementRoundTrip(cols: seq<Column>)
    ensures ParseSelect(StatementFor(cols)) == Some(cols)
  {
    if cols != [] {
      ParseSelectRoundTrip(cols);
    }
  }

  /** A built statement holds one placeholder per column. */
  lemma StatementPlaceholders(cols: seq<Column>)
    ensures Occurrences(StatementFor(cols), '?') == |cols|
  {
    if cols == [] {
      NoPlaceholdersInSelectAll();
    } else {
      SelectPlaceholders(cols);
    }
  }

  /** With both filters the statement tests the origin, then the date. */
  lemma BothFiltersStatement()
    ensures StatementFor([OriginColumn, DateColumn])
         == SelectAll + WhereKeyword + ClauseText(OriginColumn) + AndKeyword + ClauseText(DateColumn)
  {
    var cols := [OriginColumn, DateColumn];
    assert ClauseTexts(cols) == [ClauseText(OriginColumn), ClauseText(DateColumn)];
    assert Join(ClauseTexts(cols), AndKeyword) == ClauseText(OriginColumn) + AndKeyword + ClauseText(DateColumn);
  }

  /** The statement built for the filters, run with the values bound in
      order, selects exactly the rows matching the filters. */
  lemma SelectBuiltStatement(rows: seq<Record>, origin: Option<string>, date: Option<string>)
    ensures Select(rows, StatementFor(FilterColumns(origin, date)), FilterValues(origin, date))
         == Some(Matching(rows, origin, date))
  {
    ParseStatementRoundTrip(FilterColumns(origin, date));
    KeepRowsIsMatching(rows, origin, date);
  }

  /** The same, for every table at once. */
  lemma SelectBuiltStatementAll(origin: Option<string>, date: Option<string>)
    ensures forall rows ::
      Select(rows, StatementFor(FilterColumns(origin, date)), FilterValues(origin, date))
        == Some(Matching(rows, origin, date))
  {
    forall rows ensures Select(rows, StatementFor(FilterColumns(origin, date)), FilterValues(origin, date))
         == Some(Matching(rows, origin, date)) {
      SelectBuiltStatement(rows, origin, date);
    }
  }

  /** Joined conditions are never empty. */
  lemma JoinedClausesNonEmpty(cols: seq<Column>)
    requires |cols| > 0
    ensures |Join(ClauseTexts(cols), AndKeyword)| >= 10
  {
  }

  /** A single condition reads back as its column. */
  lemma ParseSingleClause(c: Column)
    ensures ParseConjunction(ClauseText(c)) == Some([c])
  {
    assert |ClauseText(OriginColumn)| == 10 && |ClauseText(DateColumn)| == 18;
  }

  /** A condition followed by " AND " and more conditions reads back as its
      column in front of what the rest reads as. */
  lemma ParseLeadingClause(c: Column, rest: string)
    requires |rest| >= 10
    ensures ParseConjunction(ClauseText(c) + AndKeyword + rest) == Prepend(c, ParseConjunction(rest))
  {
    var origin, date := ClauseText(OriginColumn), ClauseText(DateColumn);
    var s := ClauseText(c) + AndKeyword + rest;
    DropPrefix(ClauseText(c) + AndKeyword, rest);
    assert |origin| == 10 && |date| == 18 && |s| > 18;
    assert s != origin && s != date;
    if c == DateColumn {
      assert s[0] == 'D' && (origin + AndKeyword)[0] == 'o';
      assert !IsPrefix(origin + AndKeyword, s);
    }
  }

  /** Parsing a joined conjunction gives back the columns it was built from. */
  lemma {:induction false} ParseConjunctionRoundTrip(cols: seq<Column>)
    requires |cols| > 0
    ensures ParseConjunction(Join(ClauseTexts(cols), AndKeyword)) == Some(cols)
  {
    if |cols| == 1 {
      assert cols == [cols[0]];
      ParseSingleClause(cols[0]);
    } else {
      var rest := Join(ClauseTexts(cols[1..]), AndKeyword);
      assert ClauseTexts(cols)[1..] == ClauseTexts(cols[1..]);
      assert Join(ClauseTexts(cols), AndKeyword) == ClauseText(cols[0]) + AndKeyword + rest;
      JoinedClausesNonEmpty(cols[1..]);
      ParseLeadingClause(cols[0], rest);
      ParseConjunctionRoundTrip(cols[1..]);
      assert [cols[0]] + cols[1..] == cols;
    }
  }

  /** Parsing a built statement gives back the columns of its WHERE clause. */
  lemma ParseSelectRoundTrip(cols: seq<Column>)
    requires |cols| > 0
    ensures ParseSelect(SelectAll + WhereKeyword + Join(ClauseTexts(cols), AndKeyword)) == Some(cols)
  {
    var rest := Join(ClauseTexts(cols), AndKeyword);
    DropPrefix(SelectAll + WhereKeyword, rest);
    ParseConjunctionRoundTrip(cols);
  }

  /** The bare SELECT holds no placeholder. */
  lemma NoPlaceholdersInSelectAll()
    ensures Occurrences(SelectAll, '?') == 0
  {
    ColumnListHasNoPlaceholder();
    TableNameHasNoPlaceholder();
    OccurrencesAppend("SELECT id, origin, mime_data, datetime", " FROM received_data", '?');
  }

  lemma ColumnListHasNoPlaceholder()
    ensures Occurrences("SELECT id, origin, mime_data, datetime", '?') == 0
  {
    NoOccurrences("SELECT id, origin, mime_data, datetime", '?');
  }

  lemma TableNameHasNoPlaceholder()
    ensures Occurrences(" FROM received_data", '?') == 0
  {
    NoOccurrences(" FROM received_data", '?');
  }

  /** Each condition holds exactly one placeholder, the one after " = ". */
  lemma OnePlaceholderPerClause(c: Column)
    ensures Occurrences(ClauseText(c), '?') == 1
  {
    NoOccurrences(Operand(c), '?');
    assert Occurrences(" = ?", '?') == 1;
    OccurrencesAppend(Operand(c), " = ?", '?');
  }

  /** Neither keyword holds a placeholder. */
  lemma KeywordsHaveNoPlaceholder()
    ensures Occurrences(WhereKeyword, '?') == 0 && Occurrences(AndKeyword, '?') == 0
  {
    assert '?' !in WhereKeyword && '?' !in AndKeyword;
  }

  /** Joined conditions hold one placeholder per condition. */
  lemma JoinedPlaceholders(cols: seq<Column>)
    ensures Occurrences(Join(ClauseTexts(cols), AndKeyword), '?') == |cols|
  {
    var texts := ClauseTexts(cols);
    forall k | 0 <= k < |texts| ensures Occurrences(texts[k], '?') == 1 {
      OnePlaceholderPerClause(cols[k]);
    }
    KeywordsHaveNoPlaceholder();
    JoinOccurrences(texts, AndKeyword, '?');
  }

  /** A built statement holds one placeholder per condition. */
  lemma SelectPlaceholders(cols: seq<Column>)
    ensures Occurrences(SelectAll + WhereKeyword + Join(ClauseTexts(cols), AndKeyword), '?') == |cols|
  {
    JoinedPlaceholders(cols);
    KeywordsHaveNoPlaceholder();
    NoPlaceholdersInSelectAll();
    OccurrencesAppend(SelectAll, WhereKeyword, '?');
    OccurrencesAppend(SelectAll + WhereKeyword, Join(ClauseTexts(cols), AndKeyword), '?');
  }

  /** The bound conditions the handler builds hold of a row exactly when the
      row matches the request's filter. */
  lemma BoundConditionsMeanFilter(origin: Option<string>, date: Option<string>, row: Record)
    ensures |FilterColumns(origin, date)| == |FilterValues(origin, date)|
    ensures SatisfiesAll(FilterColumns(origin, date), FilterValues(origin, date), row)
        <==> MatchesFilter(row, origin, date)
  {
    var cols, vals := FilterColumns(origin, date), FilterValues(origin, date);
    if Truthy(origin) && Truthy(date) {
      assert cols == [OriginColumn, DateColumn] && vals == [origin.value, date.value];
      assert SatisfiesAll(cols, vals, row) <==> Holds(cols[0], vals[0], row) && Holds(cols[1], vals[1], row);
    } else if Truthy(origin) || Truthy(date) {
      assert SatisfiesAll(cols, vals, row) <==> Holds(cols[0], vals[0], row);
    }
  }

  /** The statement's rows are the rows matching the filter, in table order. */
  lemma {:induction false} KeepRowsIsMatching(rows: seq<Record>, origin: Option<string>, date: Option<string>)
    ensures |FilterColumns(origin, date)| == |FilterValues(origin, date)|
    ensures KeepRows(rows, FilterColumns(origin, date), FilterValues(origin, date)) == Matching(rows, origin, date)
  {
    BoundConditionsMeanFilter(origin, date, if rows == [] then Record("", "", "", "") else rows[0]);
    if rows != [] {
      KeepRowsIsMatching(rows[1..], origin, date);
    }
  }

  /** Without a filter every row is selected. */
  lemma {:induction false} NoFilterSelectsAll(rows: seq<Record>, origin: Option<string>, date: Option<string>)
    requires !Truthy(origin) && !Truthy(date)
    ensures Matching(rows, origin, date) == rows
  {
    if rows != [] {
      NoFilterSelectsAll(rows[1..], origin, date);
    }
  }

  /** Both filters together select the rows the origin filter selects, further
      narrowed by the date filter: their intersection, in table order. */
  lemma {:induction false} BothFiltersIntersect(rows: seq<Record>, origin: Option<string>, date: Option<string>)
    ensures Matching(rows, origin, date) == Matching(Matching(rows, origin, None), None, date)
  {
    if rows != [] {
      var byOrigin := Matching(rows, origin, None);
      var tail := Matching(rows[1..], origin, None);
      BothFiltersIntersect(rows[1..], origin, date);
      assert MatchesFilter(rows[0], origin, date)
         <==> MatchesFilter(rows[0], origin, None) && MatchesFilter(rows[0], None, date);
      if MatchesFilter(rows[0], origin, None) {
        assert byOrigin == [rows[0]] + tail;
        assert byOrigin[0] == rows[0] && byOrigin[1..] == tail;
      } else {
        assert byOrigin == tail;
      }
    }
  }

  /** A row stored with a given origin and timestamp is found by the filters
      that name that origin and that timestamp's date. */
  lemma StoredRowIsFound(rows: seq<Record>, rec: Record)
    requires rec in rows && IsIsoTimestamp(rec.datetime)
    ensures rec in Matching(rows, Some(rec.origin), Some(rec.datetime[..10]))
  {
  }

  /** The answer to GET /data: the matching rows handed to the view (rendered
      with status 200), or an error. */
  datatype Listing =
    | Rendered(rows: seq<Record>)
    | Failed(status: int, error: string)

  const RetrieveFailedMessage := "Failed to retrieve data from the database"

  /** The GET /data handler over the shared table; `fault` is a read failure
      of the engine, if any. */
  method GetData(db: Table, origin: Option<string>, date: Option<string>, fault: Option<DbError>)
    returns (resp: Listing)
    ensures fault.Some? ==> resp == Failed(500, RetrieveFailedMessage)
    ensures fault.None? ==> resp == Rendered(Matching(db.rows, origin, date))
  {
    var sql, params := BuildQuery(origin, date);
    if fault.Some? {
      return Failed(500, RetrieveFailedMessage);
    }
    resp := Rendered(Select(db.rows, sql, params).value);
  }
}
