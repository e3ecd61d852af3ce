/**
  query_rows: request parameters become a list of SQL clauses with named
  placeholders and a parameter map.  SQL comparison itself is left open: every
  statement holds for any meaning of the operators.
 */
module QueryBuilder {
  import opened Base
  import opened Text

  datatype Op = Eq | Ne | Lt | Lte | Gt | Gte | Like | Ilike

  datatype Value = TextValue(text: string) | DateValue(day: int) | NumberValue(n: int)

  type Row = map<string, Value>

  /** When a clause is TRUE of a row. */
  datatype Semantics = Semantics(
    compare: (Row, string, Op, Value) -> bool,
    instrumentIs: (Row, Value) -> bool,
    tickerIs: (Row, Value) -> bool,
    symbolIs: (Row, Value) -> bool)

  datatype Clause =
    | Compare(column: string, op: Op, param: string)
    | InstrumentIs(param: string)
    | TickerIs(param: string)
    | SymbolIs(param: string)

  datatype Error =
    | NoColumns | BadFilterFormat | UnknownFilterColumn | UnsupportedOperator | InvalidIdentifier
    | NoSymbolColumn | NoDateColumn | UnknownDateColumn | UnknownOrderColumn | BadDirection

  /** Empty strings stand for parameters that were not given. */
  datatype Request = Request(
    limit: int, offset: int, orderBy: string, orderDir: string, filters: seq<string>,
    symbol: string, dateColumn: string, start: Option<int>, end: Option<int>)

  datatype Query = Query(clauses: seq<Clause>, params: map<string, Value>, orderBy: string, descending: bool)

  // ----------------------------------------------------------------- filters

  predicate Letter(c: char) {
    'a' <= c <= 'z' || 'A' <= c <= 'Z' || c == '_'
  }

  predicate IdentifierText(s: string) {
    s != "" && Letter(s[0]) && forall k :: 0 < k < |s| ==> Letter(s[k]) || '0' <= s[k] <= '9'
  }

  /** '^[A-Za-z_][A-Za-z0-9_]*$': the dollar sign also matches before a final newline. */
  predicate Identifier(s: string) {
    IdentifierText(s) || (s != "" && s[|s| - 1] == '\n' && IdentifierText(s[..|s| - 1]))
  }

  /** Letters, digits and underscores, no digit first; a final newline is let through. */
  lemma IdentifierIff(s: string)
    ensures Identifier(s) <==> exists t: string :: (s == t || s == t + "\n") && IdentifierOf(t)
  {
    if Identifier(s) {
      var t := if IdentifierText(s) then s else s[..|s| - 1];
      assert s == t || s == t + "\n";
      assert IdentifierOf(t);
    }
    if t: string :| (s == t || s == t + "\n") && IdentifierOf(t) {
      assert s != t ==> s[..|s| - 1] == t;
    }
  }

  predicate IdentifierOf(t: string) {
    && t != "" && !('0' <= t[0] <= '9')
    && forall k :: 0 <= k < |t| ==>
         'a' <= t[k] <= 'z' || 'A' <= t[k] <= 'Z' || '0' <= t[k] <= '9' || t[k] == '_'
  }

  function OpName(op: Op): string {
    match op
    case Eq => "eq" case Ne => "ne" case Lt => "lt" case Lte => "lte"
    case Gt => "gt" case Gte => "gte" case Like => "like" case Ilike => "ilike"
  }

  function ParseOp(name: string): Option<Op> {
    if name == "eq" then Some(Eq) else if name == "ne" then Some(Ne)
    else if name == "lt" then Some(Lt) else if name == "lte" then Some(Lte)
    else if name == "gt" then Some(Gt) else if name == "gte" then Some(Gte)
    else if name == "like" then Some(Like) else if name == "ilike" then Some(Ilike)
    else None
  }

  datatype Filter = Filter(column: string, op: Op, value: string)

  /** _parse_filter: column:op:value, cut at the first two colons only. */
  function ParseFilter(raw: string, columns: set<string>): Result<Filter, Error> {
    var parts := SplitAtMost(raw, ':', 2);
    if |parts| != 3 then Err(BadFilterFormat)
    else
      var column, op := Strip(parts[0]), ParseOp(Lower(Strip(parts[1])));
      if column !in columns then Err(UnknownFilterColumn)
      else if op.None? then Err(UnsupportedOperator)
      else Ok(Filter(column, op.value, parts[2]))
  }

  lemma OpNamesParse(op: Op)
    ensures ParseOp(OpName(op)) == Some(op)
  {
    var eq, ne, lt, lte, gt, gte, like, ilike := "eq", "ne", "lt", "lte", "gt", "gte", "like", "ilike";
    assert eq[0] == 'e' && ne[0] == 'n' && lt[0] == like[0] == 'l' && lt[1] == 't' && like[1] == 'i';
    assert gt[0] == 'g' && ilike[0] == 'i';
  }

  lemma OpNameIsPlain(op: Op)
    ensures Stripped(OpName(op)) && Free(OpName(op), ':') && Lower(OpName(op)) == OpName(op)
  {
    var name := OpName(op);
    forall k | 0 <= k < |name| ensures 'a' <= name[k] <= 'z' {
    }
    assert Lower(name) == name;
  }

  lemma FilterParts(column: string, name: string, value: string)
    requires Free(column, ':') && Free(name, ':')
    ensures SplitAtMost(column + ":" + name + ":" + value, ':', 2) == [column, name, value]
  {
    var rest := name + [':'] + value;
    assert column + ":" + name + ":" + value == column + [':'] + rest;
    SplitAtMostAtFirst(column, ':', rest, 1);
    SplitAtMostAtFirst(name, ':', value, 0);
    SplitAtMostKeepsWhole(value, ':');
  }

  /** A filter written out is parsed back; the value may hold colons and blanks. */
  lemma FilterRoundTrip(column: string, op: Op, value: string, columns: set<string>)
    requires column in columns && Stripped(column) && Free(column, ':')
    ensures ParseFilter(column + ":" + OpName(op) + ":" + value, columns) == Ok(Filter(column, op, value))
  {
    OpNameIsPlain(op);
    OpNamesParse(op);
    FilterParts(column, OpName(op), value);
    StripIsStripped(column);
    StripIsStripped(OpName(op));
  }

  lemma OperatorNames()
    ensures ParseOp("eq") == Some(Eq) && ParseOp("ne") == Some(Ne) && ParseOp("lt") == Some(Lt)
    ensures ParseOp("lte") == Some(Lte) && ParseOp("gt") == Some(Gt) && ParseOp("gte") == Some(Gte)
    ensures ParseOp("like") == Some(Like) && ParseOp("ilike") == Some(Ilike)
  {
    OpNamesParse(Eq);
    OpNamesParse(Ne);
    OpNamesParse(Lt);
    OpNamesParse(Lte);
    OpNamesParse(Gt);
    OpNamesParse(Gte);
    OpNamesParse(Like);
    OpNamesParse(Ilike);
  }

  /** The text is a filter: a column, an operator in any case, both with blanks around
      them at will, and a value. */
  ghost predicate Writes(raw: string, f: Filter) {
    exists c, o: string ::
      && raw == c + [':'] + (o + [':'] + f.value) && Free(c, ':') && Free(o, ':')
      && Strip(c) == f.column && ParseOp(Lower(Strip(o))) == Some(f.op)
  }

  /** What is parsed as a filter is one, and every filter on a known column is parsed. */
  lemma ParsesWhatIsWritten(raw: string, columns: set<string>, f: Filter)
    ensures ParseFilter(raw, columns) == Ok(f) <==> f.column in columns && Writes(raw, f)
  {
    if ParseFilter(raw, columns) == Ok(f) {
      var c, o, v := ThreePieces(raw, ':');
      assert raw == c + [':'] + (o + [':'] + f.value);
    }
    forall c, o: string | raw == c + [':'] + (o + [':'] + f.value) && Free(c, ':') && Free(o, ':')
      ensures SplitAtMost(raw, ':', 2) == [c, o, f.value]
    {
      SplitAtMostAtFirst(c, ':', o + [':'] + f.value, 1);
      SplitAtMostAtFirst(o, ':', f.value, 0);
      SplitAtMostKeepsWhole(f.value, ':');
    }
  }

  // ----------------------------------------------------------------- columns

  const DATE_COLUMNS: seq<string> :=
      ["ts", "date", "calendar_date", "as_of_date", "published_at", "created_at", "updated_at"]

  function FirstIn(candidates: seq<string>, columns: set<string>): (r: Option<string>)
    ensures r.Some? ==> r.value in columns && r.value in candidates
    ensures r.None? <==> forall c :: c in candidates ==> c !in columns
  {
    if candidates == [] then None
    else if candidates[0] in columns then Some(candidates[0])
    else FirstIn(candidates[1..], columns)
  }

  /** _default_order_column: a date column, else an identifying one, else the least name. */
  method DefaultOrderColumn(columns: set<string>) returns (column: string)
    requires columns != {}
    ensures DefaultOrder(columns, column)
  {
    FirstDateColumn(columns);
    FirstKeyColumn(columns);
    var date := FirstIn(DATE_COLUMNS, columns);
    if date.Some? {
      return date.value;
    }
    var key := FirstIn(["id", "symbol", "instrument_id"], columns);
    if key.Some? {
      return key.value;
    }
    column := Least(columns);
  }

  lemma FirstInOneMore(c: string, rest: seq<string>, columns: set<string>)
    ensures FirstIn([c] + rest, columns) == if c in columns then Some(c) else FirstIn(rest, columns)
  {
    assert ([c] + rest)[1..] == rest;
  }

  /** The first of the seven date columns, in their order of preference. */
  lemma FirstDateColumn(columns: set<string>)
    ensures FirstIn(DATE_COLUMNS, columns)
            == if "ts" in columns then Some("ts")
               else if "date" in columns then Some("date")
               else if "calendar_date" in columns then Some("calendar_date")
               else if "as_of_date" in columns then Some("as_of_date")
               else if "published_at" in columns then Some("published_at")
               else if "created_at" in columns then Some("created_at")
               else if "updated_at" in columns then Some("updated_at")
               else None
  {
    var updated := ["updated_at"] + [];
    var created := ["created_at"] + updated;
    var published := ["published_at"] + created;
    var asOf := ["as_of_date"] + published;
    var calendar := ["calendar_date"] + asOf;
    var date := ["date"] + calendar;
    assert DATE_COLUMNS == ["ts"] + date;
    FirstInOneMore("ts", date, columns);
    FirstInOneMore("date", calendar, columns);
    FirstInOneMore("calendar_date", asOf, columns);
    FirstInOneMore("as_of_date", published, columns);
    FirstInOneMore("published_at", created, columns);
    FirstInOneMore("created_at", updated, columns);
    FirstInOneMore("updated_at", [], columns);
  }

  lemma FirstKeyColumn(columns: set<string>)
    ensures FirstIn(["id", "symbol", "instrument_id"], columns)
            == if "id" in columns then Some("id")
               else if "symbol" in columns then Some("symbol")
               else if "instrument_id" in columns then Some("instrument_id")
               else None
  {
    var instrument := ["instrument_id"] + [];
    var symbol := ["symbol"] + instrument;
    assert ["id", "symbol", "instrument_id"] == ["id"] + symbol;
    FirstInOneMore("id", symbol, columns);
    FirstInOneMore("symbol", instrument, columns);
    FirstInOneMore("instrument_id", [], columns);
  }

  function DateColumn(req: Request, columns: set<string>): Option<string> {
    if req.dateColumn != "" then Some(req.dateColumn) else FirstIn(DATE_COLUMNS, columns)
  }

  /** The column asked for, else the preferred date column. */
  lemma DateColumnIs(req: Request, columns: set<string>)
    ensures req.dateColumn != "" ==> DateColumn(req, columns) == Some(req.dateColumn)
    ensures req.dateColumn == "" ==> DateColumn(req, columns) == FirstIn(DATE_COLUMNS, columns)
  {
  }

  // ------------------------------------------------------- what is asked for

  predicate Ranged(req: Request) {
    req.start.Some? || req.end.Some?
  }

  /** The row meets every filter, the symbol test and the date range of the request. */
  ghost predicate Wanted(req: Request, columns: set<string>, sem: Semantics, row: Row) {
    && (forall k :: 0 <= k < |req.filters| ==> MeetsFilter(ParseFilter(req.filters[k], columns), sem, row))
    && (req.symbol != "" ==> MeetsSymbol(req.symbol, columns, sem, row))
    && (req.start.Some? ==> MeetsBound(DateColumn(req, columns), Gte, req.start.value, sem, row))
    && (req.end.Some? ==> MeetsBound(DateColumn(req, columns), Lte, req.end.value, sem, row))
  }

  predicate MeetsBound(column: Option<string>, op: Op, day: int, sem: Semantics, row: Row) {
    column.Some? && sem.compare(row, column.value, op, DateValue(day))
  }

  predicate MeetsFilter(parsed: Result<Filter, Error>, sem: Semantics, row: Row) {
    parsed.Ok? && sem.compare(row, parsed.value.column, parsed.value.op, TextValue(parsed.value.value))
  }

  predicate MeetsSymbol(symbol: string, columns: set<string>, sem: Semantics, row: Row) {
    if "instrument_id" in columns then sem.instrumentIs(row, TextValue(symbol))
    else if "ticker_id" in columns then sem.tickerIs(row, TextValue(symbol))
    else "symbol" in columns && sem.symbolIs(row, TextValue(symbol))
  }

  // ----------------------------------------------------------- what is refused

  function FilterError(raw: string, columns: set<string>): Option<Error> {
    match ParseFilter(raw, columns)
    case Err(e) => Some(e)
    case Ok(f) => if Identifier(f.column) then None else Some(InvalidIdentifier)
  }

  /** The first error among the first n filters. */
  function FiltersError(filters: seq<string>, columns: set<string>, n: nat): Option<Error>
    requires n <= |filters|
  {
    if n == 0 then None
    else
      var earlier := FiltersError(filters, columns, n - 1);
      if earlier.Some? then earlier else FilterError(filters[n - 1], columns)
  }

  function SymbolError(req: Request, columns: set<string>): Option<Error> {
    if req.symbol != "" && "instrument_id" !in columns && "ticker_id" !in columns && "symbol" !in columns
    then Some(NoSymbolColumn) else None
  }

  function RangeError(req: Request, columns: set<string>): Option<Error> {
    if !Ranged(req) then None
    else match DateColumn(req, columns)
      case None => Some(NoDateColumn)
      case Some(c) =>
        if c !in columns then Some(UnknownDateColumn)
        else if Identifier(c) then None
        else Some(InvalidIdentifier)
  }

  predicate DirectionKnown(dir: string) {
    Lower(dir) == "asc" || Lower(dir) == "desc"
  }

  // ------------------------------------------------------------------ the plan

  /** A clause and the value its placeholder must be bound to. */
  datatype Planned = Planned(clause: Clause, value: Value)

  function FilterParam(idx: nat): string {
    "filter_" + Decimal(idx)
  }

  function FilterPlan(filters: seq<string>, columns: set<string>, n: nat): (plan: seq<Planned>)
    requires n <= |filters| && FiltersError(filters, columns, n).None?
    ensures |plan| == n
    ensures forall k :: 0 <= k < n ==> PlansFilter(plan[k], ParseFilter(filters[k], columns), k)
  {
    if n == 0 then []
    else
      var f := ParseFilter(filters[n - 1], columns).value;
      FilterPlan(filters, columns, n - 1) + [Planned(Compare(f.column, f.op, FilterParam(n - 1)), TextValue(f.value))]
  }

  predicate PlansFilter(p: Planned, parsed: Result<Filter, Error>, k: nat) {
    parsed.Ok? && p == Planned(Compare(parsed.value.column, parsed.value.op, FilterParam(k)),
                               TextValue(parsed.value.value))
  }

  function SymbolPlan(req: Request, columns: set<string>): seq<Planned> {
    if req.symbol == "" then []
    else if "instrument_id" in columns then [Planned(InstrumentIs("symbol"), TextValue(req.symbol))]
    else if "ticker_id" in columns then [Planned(TickerIs("symbol"), TextValue(req.symbol))]
    else [Planned(SymbolIs("symbol"), TextValue(req.symbol))]
  }

  function RangePlan(req: Request, column: string): seq<Planned> {
    (if req.start.Some? then [Planned(Compare(column, Gte, "start"), DateValue(req.start.value))] else [])
    + (if req.end.Some? then [Planned(Compare(column, Lte, "end"), DateValue(req.end.value))] else [])
  }

  function TailPlan(req: Request, columns: set<string>): seq<Planned>
    requires RangeError(req, columns).None?
  {
    SymbolPlan(req, columns) + if Ranged(req) then RangePlan(req, DateColumn(req, columns).value) else []
  }

  function WholePlan(req: Request, columns: set<string>): seq<Planned>
    requires FiltersError(req.filters, columns, |req.filters|).None? && RangeError(req, columns).None?
  {
    FilterPlan(req.filters, columns, |req.filters|) + TailPlan(req, columns)
  }

  // ------------------------------------------------- names are never reused

  predicate TailName(name: string) {
    name == "symbol" || name == "start" || name == "end" || name == "limit" || name == "offset"
  }

  lemma FilterParamsAreDistinct(i: nat, j: nat, other: string)
    ensures i != j ==> FilterParam(i) != FilterParam(j)
    ensures TailName(other) ==> FilterParam(i) != other
  {
    DecimalIsInjective(i, j);
    assert FilterParam(i)[7..] == Decimal(i) && FilterParam(j)[7..] == Decimal(j);
    assert FilterParam(i)[0] == 'f';
  }

  ghost predicate DistinctNames(plan: seq<Planned>) {
    (forall i, j :: 0 <= i < j < |plan| ==> plan[i].clause.param != plan[j].clause.param)
    && (forall i :: 0 <= i < |plan| ==> plan[i].clause.param != "limit" && plan[i].clause.param != "offset")
  }

  /** What may follow the filters: symbol, start and end, each at most once. */
  ghost predicate TailOk(tail: seq<Planned>) {
    && (forall i :: 0 <= i < |tail| ==> tail[i].clause.param in {"symbol", "start", "end"})
    && (forall i, j :: 0 <= i < j < |tail| ==> tail[i].clause.param != tail[j].clause.param)
  }

  /** However many filters there are, no placeholder is used twice and none is the
      limit's or the offset's. */
  lemma PlaceholdersAreDistinct(filters: seq<string>, columns: set<string>, tail: seq<Planned>)
    requires FiltersError(filters, columns, |filters|).None? && TailOk(tail)
    ensures DistinctNames(FilterPlan(filters, columns, |filters|) + tail)
  {
    var plan := FilterPlan(filters, columns, |filters|) + tail;
    forall i, j | 0 <= i < j < |plan| ensures plan[i].clause.param != plan[j].clause.param {
      ParamsDiffer(filters, columns, tail, i, j);
    }
    forall i | 0 <= i < |plan| ensures plan[i].clause.param != "limit" && plan[i].clause.param != "offset" {
      ParamIsNotReserved(filters, columns, tail, i);
    }
  }

  lemma PlannedParam(filters: seq<string>, columns: set<string>, tail: seq<Planned>, i: nat)
    requires FiltersError(filters, columns, |filters|).None? && i < |filters| + |tail|
    ensures var plan := FilterPlan(filters, columns, |filters|) + tail;
      if i < |filters| then plan[i].clause.param == FilterParam(i) else plan[i] == tail[i - |filters|]
  {
    var plan := FilterPlan(filters, columns, |filters|);
    if i < |filters| {
      assert PlansFilter(plan[i], ParseFilter(filters[i], columns), i);
    }
  }

  lemma ParamsDiffer(filters: seq<string>, columns: set<string>, tail: seq<Planned>, i: nat, j: nat)
    requires FiltersError(filters, columns, |filters|).None? && TailOk(tail) && i < j < |filters| + |tail|
    ensures var plan := FilterPlan(filters, columns, |filters|) + tail; plan[i].clause.param != plan[j].clause.param
  {
    PlannedParam(filters, columns, tail, i);
    PlannedParam(filters, columns, tail, j);
    if i < |filters| {
      if j < |filters| {
        FilterParamsAreDistinct(i, j, "");
      } else {
        NotReserved(tail[j - |filters|].clause.param);
        FilterParamsAreDistinct(i, i, tail[j - |filters|].clause.param);
      }
    }
  }

  lemma ParamIsNotReserved(filters: seq<string>, columns: set<string>, tail: seq<Planned>, i: nat)
    requires FiltersError(filters, columns, |filters|).None? && TailOk(tail) && i < |filters| + |tail|
    ensures var param := (FilterPlan(filters, columns, |filters|) + tail)[i].clause.param;
      param != "limit" && param != "offset"
  {
    PlannedParam(filters, columns, tail, i);
    if i < |filters| {
      FilterParamsAreDistinct(i, i, "limit");
      FilterParamsAreDistinct(i, i, "offset");
    } else {
      NotReserved(tail[i - |filters|].clause.param);
    }
  }

  lemma NotReserved(name: string)
    ensures name in {"symbol", "start", "end"} ==> name != "limit" && name != "offset" && TailName(name)
  {
    var symbol, start, end, limit, offset := "symbol", "start", "end", "limit", "offset";
    assert end[0] == 'e' && limit[0] == 'l' && offset[0] == 'o' && symbol[0] == start[0] == 's';
  }

  // --------------------------------------------------------------- the query

  /** The clauses are the planned ones, and the parameters bind limit, offset and
      exactly the planned placeholders, each to its own value. */
  ghost predicate Carries(clauses: seq<Clause>, params: map<string, Value>, plan: seq<Planned>, limit: int,
                          offset: int)
  {
    && |clauses| == |plan|
    && (forall k :: 0 <= k < |plan| ==> Carried(clauses[k], params, plan[k]))
    && "limit" in params && params["limit"] == NumberValue(limit)
    && "offset" in params && params["offset"] == NumberValue(offset)
    && (forall name :: name in params ==> name == "limit" || name == "offset" || PlanUses(plan, name))
  }

  ghost predicate Carried(c: Clause, params: map<string, Value>, p: Planned) {
    c == p.clause && c.param in params && params[c.param] == p.value
  }

  ghost predicate PlanUses(plan: seq<Planned>, name: string) {
    exists k :: 0 <= k < |plan| && plan[k].clause.param == name
  }

  lemma CarryOneMore(clauses: seq<Clause>, params: map<string, Value>, plan: seq<Planned>, p: Planned, limit: int,
                     offset: int)
    requires Carries(clauses, params, plan, limit, offset) && DistinctNames(plan + [p])
    ensures Carries(clauses + [p.clause], params[p.clause.param := p.value], plan + [p], limit, offset)
  {
    var plan', params' := plan + [p], params[p.clause.param := p.value];
    assert plan'[|plan|] == p;
    forall k | 0 <= k < |plan'| ensures Carried((clauses + [p.clause])[k], params', plan'[k]) {
      if k < |plan| {
        assert plan'[k].clause.param != plan'[|plan|].clause.param && Carried(clauses[k], params, plan[k]);
      }
    }
    forall name | name in params' ensures name == "limit" || name == "offset" || PlanUses(plan', name) {
      if name == p.clause.param {
        assert plan'[|plan|].clause.param == name;
      } else if PlanUses(plan, name) {
        var k :| 0 <= k < |plan| && plan[k].clause.param == name;
        assert plan'[k].clause.param == name;
      }
    }
  }

  /** The part of the query the filters make. */
  method AddFilters(req: Request, columns: set<string>)
    returns (error: Option<Error>, clauses: seq<Clause>, params: map<string, Value>)
    ensures error == FiltersError(req.filters, columns, |req.filters|)
    ensures error.None? ==> Carries(clauses, params, FilterPlan(req.filters, columns, |req.filters|), req.limit,
                                    req.offset)
  {
    clauses, params := [], map["limit" := NumberValue(req.limit), "offset" := NumberValue(req.offset)];
    for idx := 0 to |req.filters|
      invariant FiltersError(req.filters, columns, idx).None?
      invariant Carries(clauses, params, FilterPlan(req.filters, columns, idx), req.limit, req.offset)
    {
      var problem := FilterError(req.filters[idx], columns);
      if problem.Some? {
        FirstErrorStays(req.filters, columns, idx + 1);
        return problem, clauses, params;
      }
      var f := ParseFilter(req.filters[idx], columns).value;
      var p := Planned(Compare(f.column, f.op, FilterParam(idx)), TextValue(f.value));
      FilterPlanIsDistinct(req.filters, columns, idx + 1);
      CarryOneMore(clauses, params, FilterPlan(req.filters, columns, idx), p, req.limit, req.offset);
      clauses := clauses + [Compare(f.column, f.op, FilterParam(idx))];
      params := params[FilterParam(idx) := TextValue(f.value)];
    }
    error := None;
  }

  lemma FilterPlanIsDistinct(filters: seq<string>, columns: set<string>, n: nat)
    requires n <= |filters| && FiltersError(filters, columns, n).None?
    ensures DistinctNames(FilterPlan(filters, columns, n))
  {
    forall i, j | 0 <= i < j < n ensures FilterParam(i) != FilterParam(j) {
      FilterParamsAreDistinct(i, j, "");
    }
    forall i | 0 <= i < n ensures FilterParam(i) != "limit" && FilterParam(i) != "offset" {
      FilterParamsAreDistinct(i, i, "limit");
      FilterParamsAreDistinct(i, i, "offset");
    }
  }

  lemma {:induction false} FirstErrorStays(filters: seq<string>, columns: set<string>, n: nat)
    requires n <= |filters| && FiltersError(filters, columns, n).Some?
    ensures FiltersError(filters, columns, |filters|) == FiltersError(filters, columns, n)
    decreases |filters| - n
  {
    if n == |filters| {
    } else {
      FirstErrorStays(filters, columns, n + 1);
    }
  }

  /** Adds the next clause of the tail after the filters and the clauses before it. */
  lemma CarryTail(clauses: seq<Clause>, params: map<string, Value>, req: Request, columns: set<string>,
                  tail: seq<Planned>, p: Planned)
    requires FiltersError(req.filters, columns, |req.filters|).None? && TailOk(tail + [p])
    requires Carries(clauses, params, FilterPlan(req.filters, columns, |req.filters|) + tail, req.limit, req.offset)
    ensures Carries(clauses + [p.clause], params[p.clause.param := p.value],
                    FilterPlan(req.filters, columns, |req.filters|) + (tail + [p]), req.limit, req.offset)
  {
    var plan := FilterPlan(req.filters, columns, |req.filters|);
    PlaceholdersAreDistinct(req.filters, columns, tail + [p]);
    assert plan + (tail + [p]) == (plan + tail) + [p];
    CarryOneMore(clauses, params, plan + tail, p, req.limit, req.offset);
  }

  /** The symbol test. */
  method AddSymbol(req: Request, columns: set<string>, earlier: seq<Clause>, bound: map<string, Value>)
    returns (error: Option<Error>, clauses: seq<Clause>, params: map<string, Value>)
    requires FiltersError(req.filters, columns, |req.filters|).None?
    requires Carries(earlier, bound, FilterPlan(req.filters, columns, |req.filters|), req.limit, req.offset)
    ensures error == SymbolError(req, columns)
    ensures error.None? ==> Carries(clauses, params,
                                    FilterPlan(req.filters, columns, |req.filters|) + SymbolPlan(req, columns),
                                    req.limit, req.offset)
  {
    error, clauses, params := None, earlier, bound;
    assert FilterPlan(req.filters, columns, |req.filters|) + [] == FilterPlan(req.filters, columns, |req.filters|);
    if req.symbol != "" {
      params := params["symbol" := TextValue(req.symbol)];
      var clause;
      if "instrument_id" in columns {
        clause := InstrumentIs("symbol");
      } else if "ticker_id" in columns {
        clause := TickerIs("symbol");
      } else if "symbol" in columns {
        clause := SymbolIs("symbol");
      } else {
        return Some(NoSymbolColumn), clauses, params;
      }
      clauses := clauses + [clause];
      var p := Planned(clause, TextValue(req.symbol));
      assert [] + [p] == [p] == SymbolPlan(req, columns);
      CarryTail(earlier, bound, req, columns, [], p);
    }
  }

  /** The date range. */
  method AddRange(req: Request, columns: set<string>, earlier: seq<Clause>, bound: map<string, Value>)
    returns (error: Option<Error>, clauses: seq<Clause>, params: map<string, Value>)
    requires FiltersError(req.filters, columns, |req.filters|).None?
    requires Carries(earlier, bound, FilterPlan(req.filters, columns, |req.filters|) + SymbolPlan(req, columns),
                     req.limit, req.offset)
    ensures error == RangeError(req, columns)
    ensures error.None? ==> Carries(clauses, params, WholePlan(req, columns), req.limit, req.offset)
  {
    error, clauses, params := None, earlier, bound;
    if Ranged(req) {
      var column := DateColumn(req, columns);
      if column.None? {
        return Some(NoDateColumn), clauses, params;
      }
      if column.value !in columns {
        return Some(UnknownDateColumn), clauses, params;
      }
      if !Identifier(column.value) {
        return Some(InvalidIdentifier), clauses, params;
      }
      clauses, params := AddBounds(req, columns, column.value, earlier, bound);
    }
    assert SymbolPlan(req, columns) + [] == SymbolPlan(req, columns);
  }

  lemma TailsAreOk(req: Request, columns: set<string>, start: Planned, end: Planned)
    requires start.clause.param == "start" && end.clause.param == "end"
    ensures var symbol := SymbolPlan(req, columns);
      TailOk(symbol + [start]) && TailOk(symbol + [end]) && TailOk((symbol + [start]) + [end])
  {
    var s, t, e := "symbol", "start", "end";
    assert s[1] == 'y' && t[1] == 't' && e[0] == 'e' && s[0] == t[0] == 's';
  }

  method AddBounds(req: Request, columns: set<string>, column: string, earlier: seq<Clause>, bound: map<string, Value>)
    returns (clauses: seq<Clause>, params: map<string, Value>)
    requires FiltersError(req.filters, columns, |req.filters|).None?
    requires Carries(earlier, bound, FilterPlan(req.filters, columns, |req.filters|) + SymbolPlan(req, columns),
                     req.limit, req.offset)
    ensures Carries(clauses, params,
                    FilterPlan(req.filters, columns, |req.filters|)
                    + (SymbolPlan(req, columns) + RangePlan(req, column)),
                    req.limit, req.offset)
  {
    clauses, params := earlier, bound;
    var from, upto := Compare(column, Gte, "start"), Compare(column, Lte, "end");
    ghost var tail := SymbolPlan(req, columns);
    if req.start.Some? {
      TailsAreOk(req, columns, Planned(from, DateValue(req.start.value)), Planned(upto, DateValue(0)));
      clauses, params := AddBound(req, columns, clauses, params, tail, from, DateValue(req.start.value));
      tail := tail + [Planned(from, DateValue(req.start.value))];
    }
    if req.end.Some? {
      if req.start.Some? {
        TailsAreOk(req, columns, Planned(from, DateValue(req.start.value)), Planned(upto, DateValue(req.end.value)));
      } else {
        TailsAreOk(req, columns, Planned(from, DateValue(0)), Planned(upto, DateValue(req.end.value)));
      }
      clauses, params := AddBound(req, columns, clauses, params, tail, upto, DateValue(req.end.value));
      tail := tail + [Planned(upto, DateValue(req.end.value))];
    }
    assert tail == SymbolPlan(req, columns) + RangePlan(req, column);
  }

  method AddBound(req: Request, columns: set<string>, earlier: seq<Clause>, bound: map<string, Value>,
                  ghost tail: seq<Planned>, clause: Clause, value: Value)
    returns (clauses: seq<Clause>, params: map<string, Value>)
    requires FiltersError(req.filters, columns, |req.filters|).None?
    requires Carries(earlier, bound, FilterPlan(req.filters, columns, |req.filters|) + tail, req.limit, req.offset)
    requires TailOk(tail + [Planned(clause, value)])
    ensures Carries(clauses, params,
                    FilterPlan(req.filters, columns, |req.filters|) + (tail + [Planned(clause, value)]),
                    req.limit, req.offset)
  {
    CarryTail(earlier, bound, req, columns, tail, Planned(clause, value));
    clauses := earlier + [clause];
    params := bound[clause.param := value];
  }

  // ------------------------------------------------------------- whole query

  function EarlyError(req: Request, columns: set<string>): Option<Error> {
    if columns == {} then Some(NoColumns)
    else if FiltersError(req.filters, columns, |req.filters|).Some? then
      FiltersError(req.filters, columns, |req.filters|)
    else if SymbolError(req, columns).Some? then SymbolError(req, columns)
    else RangeError(req, columns)
  }

  function OrderError(req: Request, columns: set<string>, column: string): Option<Error> {
    if column !in columns then Some(UnknownOrderColumn)
    else if !DirectionKnown(req.orderDir) then Some(BadDirection)
    else if !Identifier(column) then Some(InvalidIdentifier)
    else None
  }

  ghost predicate OrderColumn(req: Request, columns: set<string>, column: string) {
    if req.orderBy != "" then column == req.orderBy else DefaultOrder(columns, column)
  }

  /** ORDER BY when none is asked for: a date column, a key, or the least name. */
  ghost predicate DefaultOrder(columns: set<string>, column: string) {
    column in columns &&
    if "ts" in columns then column == "ts"
    else if "date" in columns then column == "date"
    else if "calendar_date" in columns then column == "calendar_date"
    else if "as_of_date" in columns then column == "as_of_date"
    else if "published_at" in columns then column == "published_at"
    else if "created_at" in columns then column == "created_at"
    else if "updated_at" in columns then column == "updated_at"
    else if "id" in columns then column == "id"
    else if "symbol" in columns then column == "symbol"
    else if "instrument_id" in columns then column == "instrument_id"
    else forall c :: c in columns ==> AtMost(column, c)
  }

  method BuildQuery(req: Request, columns: set<string>) returns (result: Result<Query, Error>)
    ensures EarlyError(req, columns).Some? ==> result == Err(EarlyError(req, columns).value)
    ensures EarlyError(req, columns).None? ==>
      exists column :: OrderColumn(req, columns, column) &&
        if OrderError(req, columns, column).Some? then result == Err(OrderError(req, columns, column).value)
        else result.Ok? && result.value.orderBy == column
    ensures result.Ok? ==> EarlyError(req, columns).None? && QueryOf(result.value, req, columns)
  {
    if columns == {} {
      return Err(NoColumns);
    }
    var error, clauses, params := AddFilters(req, columns);
    if error.Some? {
      return Err(error.value);
    }
    error, clauses, params := AddSymbol(req, columns, clauses, params);
    if error.Some? {
      return Err(error.value);
    }
    error, clauses, params := AddRange(req, columns, clauses, params);
    if error.Some? {
      return Err(error.value);
    }
    var column := req.orderBy;
    if column == "" {
      column := DefaultOrderColumn(columns);
    }
    assert OrderColumn(req, columns, column);
    if column !in columns {
      return Err(UnknownOrderColumn);
    }
    if !DirectionKnown(req.orderDir) {
      return Err(BadDirection);
    }
    if !Identifier(column) {
      return Err(InvalidIdentifier);
    }
    return Ok(Query(clauses, params, column, Lower(req.orderDir) == "desc"));
  }

  /** It parses, and its column can be quoted. */
  predicate FilterOk(raw: string, columns: set<string>) {
    ParseFilter(raw, columns).Ok? && Identifier(ParseFilter(raw, columns).value.column)
  }

  /** The first error any test finds among the first n entries. */
  function FirstError(filters: seq<string>, test: string -> Option<Error>, n: nat): Option<Error>
    requires n <= |filters|
  {
    if n == 0 then None
    else
      var earlier := FirstError(filters, test, n - 1);
      if earlier.Some? then earlier else test(filters[n - 1])
  }

  lemma {:induction false} NoneFails(filters: seq<string>, test: string -> Option<Error>, n: nat)
    requires n <= |filters|
    ensures FirstError(filters, test, n).None? <==> forall k :: 0 <= k < n ==> test(filters[k]).None?
  {
    if n == 0 {
    } else {
      NoneFails(filters, test, n - 1);
    }
  }

  /** The error is that of the first entry that has one. */
  lemma {:induction false} FirstFails(filters: seq<string>, test: string -> Option<Error>, n: nat) returns (k: nat)
    requires n <= |filters| && FirstError(filters, test, n).Some?
    ensures k < n && test(filters[k]) == FirstError(filters, test, n)
    ensures forall j :: 0 <= j < k ==> test(filters[j]).None?
  {
    if FirstError(filters, test, n - 1).Some? {
      k := FirstFails(filters, test, n - 1);
    } else {
      k := n - 1;
      NoneFails(filters, test, n - 1);
    }
  }

  function TestIn(columns: set<string>): string -> Option<Error> {
    raw => FilterError(raw, columns)
  }

  lemma {:induction false} FiltersErrorIsFirst(filters: seq<string>, columns: set<string>, n: nat)
    requires n <= |filters|
    ensures FiltersError(filters, columns, n) == FirstError(filters, TestIn(columns), n)
  {
    if n == 0 {
    } else {
      FiltersErrorIsFirst(filters, columns, n - 1);
    }
  }

  lemma NoFilterErrorIff(filters: seq<string>, columns: set<string>)
    ensures FiltersError(filters, columns, |filters|).None? <==>
      forall k :: 0 <= k < |filters| ==> FilterOk(filters[k], columns)
  {
    FiltersErrorIsFirst(filters, columns, |filters|);
    NoneFails(filters, TestIn(columns), |filters|);
    forall k | 0 <= k < |filters| ensures TestIn(columns)(filters[k]).None? <==> FilterOk(filters[k], columns) {
      FilterErrorIs(filters[k], columns);
    }
  }

  lemma FirstFilterError(filters: seq<string>, columns: set<string>) returns (k: nat)
    requires FiltersError(filters, columns, |filters|).Some?
    ensures k < |filters| && FilterError(filters[k], columns) == FiltersError(filters, columns, |filters|)
    ensures forall j :: 0 <= j < k ==> FilterError(filters[j], columns).None?
  {
    FiltersErrorIsFirst(filters, columns, |filters|);
    k := FirstFails(filters, TestIn(columns), |filters|);
    forall j | 0 <= j < k ensures FilterError(filters[j], columns).None? {
      assert TestIn(columns)(filters[j]).None?;
    }
  }

  lemma FilterErrorIs(raw: string, columns: set<string>)
    ensures FilterError(raw, columns).None? <==> FilterOk(raw, columns)
    ensures ParseFilter(raw, columns).Err? ==> FilterError(raw, columns) == Some(ParseFilter(raw, columns).error)
    ensures FilterError(raw, columns).Some? && ParseFilter(raw, columns).Ok? ==>
      FilterError(raw, columns) == Some(InvalidIdentifier)
  {
  }

  /** What is answered: a table with columns, every filter on a known column, a symbol
      only with a column for it, a date range only with a known column to apply it to. */
  lemma NoEarlyErrorIff(req: Request, columns: set<string>)
    ensures EarlyError(req, columns).None? <==>
      && columns != {}
      && (forall k :: 0 <= k < |req.filters| ==> FilterOk(req.filters[k], columns))
      && (req.symbol != "" ==> "instrument_id" in columns || "ticker_id" in columns || "symbol" in columns)
      && (req.start.Some? || req.end.Some? ==>
            DateColumn(req, columns).Some? && DateColumn(req, columns).value in columns
            && Identifier(DateColumn(req, columns).value))
    ensures columns == {} ==> EarlyError(req, columns) == Some(NoColumns)
    ensures columns != {} && FiltersError(req.filters, columns, |req.filters|).Some? ==>
      EarlyError(req, columns) == FiltersError(req.filters, columns, |req.filters|)
  {
    NoFilterErrorIff(req.filters, columns);
  }

  /** The rest of it: a direction in any case, and a known column that can be quoted. */
  lemma NoOrderErrorIff(req: Request, columns: set<string>, column: string)
    ensures OrderError(req, columns, column).None? <==>
      column in columns && Identifier(column) && Lower(req.orderDir) in {"asc", "desc"}
    ensures column !in columns ==> OrderError(req, columns, column) == Some(UnknownOrderColumn)
    ensures column in columns && Lower(req.orderDir) !in {"asc", "desc"} ==>
      OrderError(req, columns, column) == Some(BadDirection)
  {
  }

  ghost predicate QueryOf(q: Query, req: Request, columns: set<string>)
    requires EarlyError(req, columns).None?
  {
    Carries(q.clauses, q.params, WholePlan(req, columns), req.limit, req.offset)
    && q.orderBy in columns && (q.descending <==> Lower(req.orderDir) == "desc")
  }

  // ------------------------------------------------------------ its meaning

  predicate Holds(c: Clause, value: Value, sem: Semantics, row: Row) {
    match c
    case Compare(column, op, _) => sem.compare(row, column, op, value)
    case InstrumentIs(_) => sem.instrumentIs(row, value)
    case TickerIs(_) => sem.tickerIs(row, value)
    case SymbolIs(_) => sem.symbolIs(row, value)
  }

  /** The WHERE clause with its parameters, on one row. */
  ghost predicate Selects(q: Query, sem: Semantics, row: Row) {
    forall k :: 0 <= k < |q.clauses| ==> ClauseSelects(q, k, sem, row)
  }

  ghost predicate ClauseSelects(q: Query, k: nat, sem: Semantics, row: Row)
    requires k < |q.clauses|
  {
    q.clauses[k].param in q.params && Holds(q.clauses[k], q.params[q.clauses[k].param], sem, row)
  }

  ghost predicate PlanHolds(plan: seq<Planned>, sem: Semantics, row: Row) {
    forall k :: 0 <= k < |plan| ==> PlannedHolds(plan[k], sem, row)
  }

  predicate PlannedHolds(p: Planned, sem: Semantics, row: Row) {
    Holds(p.clause, p.value, sem, row)
  }

  lemma PlanHoldsSplits(a: seq<Planned>, b: seq<Planned>, sem: Semantics, row: Row)
    ensures PlanHolds(a + b, sem, row) <==> PlanHolds(a, sem, row) && PlanHolds(b, sem, row)
  {
    var both := a + b;
    forall k | 0 <= k < |both| ensures both[k] == if k < |a| then a[k] else b[k - |a|] {
    }
    forall k | 0 <= k < |b| ensures both[k + |a|] == b[k] {
    }
  }

  lemma SelectsThePlan(q: Query, req: Request, columns: set<string>, sem: Semantics, row: Row)
    requires EarlyError(req, columns).None? && QueryOf(q, req, columns)
    ensures Selects(q, sem, row) <==> PlanHolds(WholePlan(req, columns), sem, row)
  {
    var plan := WholePlan(req, columns);
    forall k | 0 <= k < |plan| ensures ClauseSelects(q, k, sem, row) <==> PlannedHolds(plan[k], sem, row) {
      assert Carried(q.clauses[k], q.params, plan[k]);
    }
  }

  lemma FilterPlanMeansFilters(req: Request, columns: set<string>, sem: Semantics, row: Row)
    requires FiltersError(req.filters, columns, |req.filters|).None?
    ensures PlanHolds(FilterPlan(req.filters, columns, |req.filters|), sem, row)
            <==> forall k :: 0 <= k < |req.filters| ==> MeetsFilter(ParseFilter(req.filters[k], columns), sem, row)
  {
    var plan := FilterPlan(req.filters, columns, |req.filters|);
    forall k | 0 <= k < |plan|
      ensures PlannedHolds(plan[k], sem, row) <==> MeetsFilter(ParseFilter(req.filters[k], columns), sem, row)
    {
      assert PlansFilter(plan[k], ParseFilter(req.filters[k], columns), k);
    }
  }

  lemma TailPlanMeansTail(req: Request, columns: set<string>, sem: Semantics, row: Row)
    requires SymbolError(req, columns).None? && RangeError(req, columns).None?
    ensures PlanHolds(SymbolPlan(req, columns), sem, row)
            <==> (req.symbol != "" ==> MeetsSymbol(req.symbol, columns, sem, row))
    ensures Ranged(req) ==>
      (PlanHolds(RangePlan(req, DateColumn(req, columns).value), sem, row) <==>
        (req.start.Some? ==> MeetsBound(DateColumn(req, columns), Gte, req.start.value, sem, row))
        && (req.end.Some? ==> MeetsBound(DateColumn(req, columns), Lte, req.end.value, sem, row)))
  {
    if req.symbol != "" {
      var p := SymbolPlan(req, columns)[0];
      assert PlannedHolds(p, sem, row) <==> MeetsSymbol(req.symbol, columns, sem, row);
    }
    if Ranged(req) {
      var c := DateColumn(req, columns).value;
      var from := if req.start.Some? then [Planned(Compare(c, Gte, "start"), DateValue(req.start.value))] else [];
      var upto := if req.end.Some? then [Planned(Compare(c, Lte, "end"), DateValue(req.end.value))] else [];
      PlanHoldsSplits(from, upto, sem, row);
      if req.start.Some? {
        assert PlannedHolds(from[0], sem, row)
            <==> MeetsBound(DateColumn(req, columns), Gte, req.start.value, sem, row);
      }
      if req.end.Some? {
        assert PlannedHolds(upto[0], sem, row) <==> MeetsBound(DateColumn(req, columns), Lte, req.end.value, sem, row);
      }
    }
  }

  /** Whatever the operators mean, the generated query selects exactly the rows that
      meet every filter, the symbol test and the date range. */
  lemma QuerySelectsExactlyWanted(q: Query, req: Request, columns: set<string>, sem: Semantics, row: Row)
    requires EarlyError(req, columns).None? && QueryOf(q, req, columns)
    ensures Selects(q, sem, row) <==> Wanted(req, columns, sem, row)
  {
    var filters, symbol := FilterPlan(req.filters, columns, |req.filters|), SymbolPlan(req, columns);
    var range := if Ranged(req) then RangePlan(req, DateColumn(req, columns).value) else [];
    SelectsThePlan(q, req, columns, sem, row);
    PlanHoldsSplits(filters, symbol + range, sem, row);
    PlanHoldsSplits(symbol, range, sem, row);
    FilterPlanMeansFilters(req, columns, sem, row);
    TailPlanMeansTail(req, columns, sem, row);
  }
}
