/**
  The survey table shared by the three dashboards (src/main.py, src/weekly.py,
  src/monthly.py): the spreadsheet rows, the numeric columns made with
  `handling_bad_numbers`, the "Week ending" column, the merge with Roles.csv,
  and the trend means that all three bottom panels compute.

  A mean is kept as its (sum, count) pair: pandas would divide in floating point.
*/
module Frame {
  import opened Wrappers
  import opened Dates
  import opened Coercion
  import opened Sequences

  type Question = string

  /** One spreadsheet row as read: who answered, the answer to each question, and when. */
  datatype Response = Response(name: string, answers: map<Question, Cell>, completed: Timestamp)

  /**
    One row of the loaded table: the spreadsheet row, its "Numeric: ..." columns,
    its "Week ending" (a day number, midnight) and its Role, which is missing
    (NaN) until it is filled in.
  */
  datatype Row = Row(
    name: string,
    answers: map<Question, Cell>,
    numeric: map<Question, int>,
    completed: Timestamp,
    week: Day,
    role: Option<string>)

  /** One line of Roles.csv; an empty Role cell is None. */
  datatype RoleEntry = RoleEntry(name: string, role: Option<string>)

  /**
    The exception that aborts a load: an answer that does not coerce (which
    question, which row, and why), or the AttributeError of `.dt.floor("D")`
    on the "Completion time" column of a sheet with no responses, which
    pandas does not read as dates.
  */
  datatype LoadError = BadNumber(question: Question, row: nat, cause: CoerceError) | NoDates

  /** A mean as its sum and its number of values. */
  datatype Mean = Mean(sum: int, count: nat)

  const DefaultRole: string := "Developer"

  /** The cell of question `q`; a question with no cell reads as an empty cell (NaN). */
  function Answer(answers: map<Question, Cell>, q: Question): Cell
  {
    if q in answers then answers[q] else Blank
  }

  // ---------------------------------------------------------------------
  // Numeric columns (src/main.py:24-26)

  predicate CoercibleRow(r: Response, qs: seq<Question>) {
    forall q :: q in qs ==> HandlingBadNumbers(Answer(r.answers, q)).Ok?
  }

  /** Every answer to every listed question coerces: otherwise the load aborts. */
  predicate Coercible(sheet: seq<Response>, qs: seq<Question>) {
    forall i :: 0 <= i < |sheet| ==> CoercibleRow(sheet[i], qs)
  }

  /**
    The cell a failed load reports is the first one to raise: its question is
    the first listed question whose column does not coerce (the columns are
    converted in list order), and its row the first row of that column that
    raises, with the error it raises.
  */
  predicate FirstBadCell(sheet: seq<Response>, qs: seq<Question>, e: LoadError) {
    && e.BadNumber?
    && e.row < |sheet|
    && HandlingBadNumbers(Answer(sheet[e.row].answers, e.question)) == Err(e.cause)
    && (forall i :: 0 <= i < e.row ==> HandlingBadNumbers(Answer(sheet[i].answers, e.question)).Ok?)
    && exists k :: 0 <= k < |qs| && qs[k] == e.question && Coercible(sheet, qs[..k])
  }

  /** The "Numeric: q" cells of one row, for every listed question. */
  function NumericAnswers(r: Response, qs: seq<Question>): (m: map<Question, int>)
    requires CoercibleRow(r, qs)
    ensures m.Keys == set q | q in qs
  {
    map q | q in qs :: HandlingBadNumbers(Answer(r.answers, q)).value
  }

  /**
    `df[q].apply(handling_bad_numbers)` over a column of per-row outcomes: all
    the values, or the first row (top to bottom) whose coercion raised.
  */
  function Collect<E>(outcomes: seq<Result<int, E>>): (r: Result<seq<int>, (nat, E)>)
    ensures r.Ok? ==> |r.value| == |outcomes|
    ensures r.Ok? ==> forall i :: 0 <= i < |outcomes| ==> outcomes[i] == Ok(r.value[i])
    ensures r.Err? ==> r.error.0 < |outcomes| && outcomes[r.error.0] == Err(r.error.1)
    ensures r.Err? ==> forall i :: 0 <= i < r.error.0 ==> outcomes[i].Ok?
  {
    if outcomes == [] then Ok([])
    else match outcomes[0]
      case Err(e) => Err((0, e))
      case Ok(v) =>
        match Collect(outcomes[1..])
        case Err(failure) => Err((failure.0 + 1, failure.1))
        case Ok(vs) => Ok([v] + vs)
  }

  /** `handling_bad_numbers` applied to the answer to `q` of every row, in row order. */
  function ColumnOutcomes(sheet: seq<Response>, q: Question): (o: seq<Result<int, CoerceError>>)
    ensures |o| == |sheet|
    ensures forall i :: 0 <= i < |sheet| ==> o[i] == HandlingBadNumbers(Answer(sheet[i].answers, q))
  {
    seq(|sheet|, i requires 0 <= i < |sheet| => HandlingBadNumbers(Answer(sheet[i].answers, q)))
  }

  /** A map with the listed questions as keys and each coerced answer as value is the row's numeric answers. */
  lemma NumericAnswersAre(r: Response, qs: seq<Question>, m: map<Question, int>)
    requires CoercibleRow(r, qs)
    requires forall q :: q in m <==> q in qs
    requires forall q :: q in m ==> HandlingBadNumbers(Answer(r.answers, q)) == Ok(m[q])
    ensures m == NumericAnswers(r, qs)
  {
  }

  /**
    The loop at src/main.py:24-26: one "Numeric: q" column per listed question,
    in order. The first answer that does not coerce aborts the whole load.
  */
  method CreateNumericColumns(sheet: seq<Response>, qs: seq<Question>) returns (r: Result<seq<map<Question, int>>, LoadError>)
    ensures r.Ok? <==> Coercible(sheet, qs)
    ensures r.Ok? ==> |r.value| == |sheet|
    ensures r.Ok? ==> forall i :: 0 <= i < |sheet| ==> r.value[i] == NumericAnswers(sheet[i], qs)
    ensures r.Err? ==> r.error.BadNumber?
    ensures r.Err? ==> r.error.question in qs && r.error.row < |sheet|
    ensures r.Err? ==> HandlingBadNumbers(Answer(sheet[r.error.row].answers, r.error.question)) == Err(r.error.cause)
    ensures r.Err? ==> FirstBadCell(sheet, qs, r.error)
  {
    var columns: seq<map<Question, int>> := seq(|sheet|, _ => map[]);
    for k := 0 to |qs|
      invariant |columns| == |sheet|
      invariant Coercible(sheet, qs[..k])
      invariant forall i, x :: 0 <= i < |sheet| ==> (x in columns[i] <==> x in qs[..k])
      invariant forall i, x :: 0 <= i < |sheet| && x in columns[i] ==>
        HandlingBadNumbers(Answer(sheet[i].answers, x)) == Ok(columns[i][x])
    {
      var q := qs[k];
      assert qs[..k + 1] == qs[..k] + [q];
      var outcomes := ColumnOutcomes(sheet, q);
      var column := Collect(outcomes);
      if column.Err? {
        var i := column.error.0;
        assert q in qs && outcomes[i].Err?;
        assert qs[k] == q && Coercible(sheet, qs[..k]);
        return Err(BadNumber(q, i, column.error.1));
      }
      assert forall i :: 0 <= i < |sheet| ==> outcomes[i] == Ok(column.value[i]);
      columns := seq(|sheet|, i requires 0 <= i < |sheet| => columns[i][q := column.value[i]]);
    }
    assert qs[..|qs|] == qs;
    forall i | 0 <= i < |sheet|
      ensures columns[i] == NumericAnswers(sheet[i], qs)
    {
      NumericAnswersAre(sheet[i], qs, columns[i]);
    }
    return Ok(columns);
  }

  /**
    The table after the numeric columns and the "Week ending" column
    (src/main.py:24-31): spreadsheet order, no Role yet.
  */
  function Prepared(sheet: seq<Response>, qs: seq<Question>): (rows: seq<Row>)
    requires Coercible(sheet, qs)
    ensures |rows| == |sheet|
    ensures forall i :: 0 <= i < |sheet| ==>
      rows[i].name == sheet[i].name && rows[i].answers == sheet[i].answers &&
      rows[i].completed == sheet[i].completed && rows[i].role.None?
    ensures forall i :: 0 <= i < |sheet| ==>
      rows[i].week == WeekEnding(sheet[i].completed) && Weekday(rows[i].week) == Friday
    ensures forall i :: 0 <= i < |sheet| ==> rows[i].numeric.Keys == set q | q in qs
    ensures forall i, q :: 0 <= i < |sheet| && q in qs ==>
      q in rows[i].numeric && rows[i].numeric[q] == HandlingBadNumbers(Answer(sheet[i].answers, q)).value
  {
    seq(|sheet|, i requires 0 <= i < |sheet| =>
      Row(sheet[i].name, sheet[i].answers, NumericAnswers(sheet[i], qs),
          sheet[i].completed, WeekEnding(sheet[i].completed), None))
  }

  /** Rows built from the coerced columns, as the load pipelines do, are the prepared table. */
  lemma PreparedFromColumns(sheet: seq<Response>, qs: seq<Question>, numeric: seq<map<Question, int>>, df: seq<Row>)
    requires Coercible(sheet, qs)
    requires |numeric| == |sheet| && forall i :: 0 <= i < |sheet| ==> numeric[i] == NumericAnswers(sheet[i], qs)
    requires |df| == |sheet|
    requires forall i :: 0 <= i < |sheet| ==>
      df[i] == Row(sheet[i].name, sheet[i].answers, numeric[i], sheet[i].completed, WeekEnding(sheet[i].completed), None)
    ensures df == Prepared(sheet, qs)
  {
  }

  // ---------------------------------------------------------------------
  // Most recent week (src/main.py:32)

  /** `df["Week ending"].max()`; NaT (None) for an empty table. */
  function MostRecentWeek(rows: seq<Row>): (m: Option<Day>)
    ensures m.None? <==> rows == []
    ensures m.Some? ==> exists i :: 0 <= i < |rows| && rows[i].week == m.value
    ensures m.Some? ==> forall i :: 0 <= i < |rows| ==> rows[i].week <= m.value
  {
    if rows == [] then None
    else match MostRecentWeek(rows[1..])
      case None => Some(rows[0].week)
      case Some(w) => Some(if rows[0].week >= w then rows[0].week else w)
  }

  /** The most recent week of a prepared table is a Friday, and no response falls after its Tuesday. */
  lemma MostRecentWeekIsFriday(sheet: seq<Response>, qs: seq<Question>)
    requires Coercible(sheet, qs) && sheet != []
    ensures MostRecentWeek(Prepared(sheet, qs)).Some?
    ensures Weekday(MostRecentWeek(Prepared(sheet, qs)).value) == Friday
    ensures forall i :: 0 <= i < |sheet| ==> sheet[i].completed.day <= MostRecentWeek(Prepared(sheet, qs)).value + 4
  {
    var rows := Prepared(sheet, qs);
    var m := MostRecentWeek(rows).value;
    var j :| 0 <= j < |rows| && rows[j].week == m;
    WeekEndingIsNearbyFriday(sheet[j].completed);
    forall i | 0 <= i < |sheet|
      ensures sheet[i].completed.day <= m + 4
    {
      assert rows[i].week <= m;
      FridayOwnsWindow(sheet[i].completed, rows[i].week);
    }
  }

  // ---------------------------------------------------------------------
  // Merging with Roles.csv (src/main.py:35-37, src/weekly.py:33-37, src/monthly.py:34-38)

  function RoleNames(roles: seq<RoleEntry>): set<string> {
    set e | e in roles :: e.name
  }

  /** The Role cells of the Roles.csv lines for `name`, in file order. */
  function RolesFor(roles: seq<RoleEntry>, name: string): (m: seq<Option<string>>)
    ensures |m| == 0 <==> name !in RoleNames(roles)
    ensures forall x :: x in m <==> exists e :: e in roles && e.name == name && e.role == x
  {
    if roles == [] then []
    else
      assert RoleNames(roles) == {roles[0].name} + RoleNames(roles[1..]);
      LineMatch(roles[0], name) + RolesFor(roles[1..], name)
  }

  /** The Role of one Roles.csv line if it is for `name`. */
  function LineMatch(e: RoleEntry, name: string): seq<Option<string>>
  {
    if e.name == name then [e.role] else []
  }

  /** The matches follow Roles.csv: the lines of one file part, then those of the next. */
  lemma {:induction false} RolesForAppend(a: seq<RoleEntry>, b: seq<RoleEntry>, name: string)
    ensures RolesFor(a + b, name) == RolesFor(a, name) + RolesFor(b, name)
  {
    if a == [] {
      assert a + b == b;
    } else {
      RolesForAppend(a[1..], b, name);
      calc {
        RolesFor(a + b, name);
        { ConsAppend(a, b); }
        LineMatch(a[0], name) + RolesFor(a[1..] + b, name);
        LineMatch(a[0], name) + RolesFor(a[1..], name) + RolesFor(b, name);
      }
    }
  }

  /** A single Roles.csv line matches once, with its own Role, or not at all. */
  lemma RolesForLine(e: RoleEntry, name: string)
    ensures RolesFor([e], name) == if e.name == name then [e.role] else []
  {
    assert [e][1..] == [];
  }

  /** One copy of `row` per matching Roles.csv line, carrying that line's Role. */
  function WithRoles(row: Row, matches: seq<Option<string>>): (r: seq<Row>)
    ensures |r| == |matches|
    ensures forall j :: 0 <= j < |r| ==> r[j] == row.(role := matches[j])
  {
    seq(|matches|, j requires 0 <= j < |matches| => row.(role := matches[j]))
  }

  /** The rows with their Role cleared: what a merge may not change. */
  function Bare(rows: seq<Row>): set<Row> {
    set x | x in rows :: x.(role := None)
  }

  lemma BareAppend(a: seq<Row>, b: seq<Row>)
    ensures Bare(a + b) == Bare(a) + Bare(b)
  {
    assert forall x :: x in a + b <==> x in a || x in b;
  }

  lemma BareWithRoles(row: Row, matches: seq<Option<string>>)
    requires matches != []
    ensures Bare(WithRoles(row, matches)) == {row.(role := None)}
  {
    assert WithRoles(row, matches)[0] in WithRoles(row, matches);
  }

  lemma BareCons(rows: seq<Row>)
    requires rows != []
    ensures Bare(rows) == {rows[0].(role := None)} + Bare(rows[1..])
  {
    assert rows == [rows[0]] + rows[1..];
    BareAppend([rows[0]], rows[1..]);
  }

  /** The rows whose Name is in Roles.csv, with their Role cleared. */
  function ListedBare(rows: seq<Row>, roles: seq<RoleEntry>): set<Row> {
    set x | x in rows && x.name in RoleNames(roles) :: x.(role := None)
  }

  lemma ListedBareCons(rows: seq<Row>, roles: seq<RoleEntry>)
    requires rows != []
    ensures ListedBare(rows, roles) ==
      (if rows[0].name in RoleNames(roles) then {rows[0].(role := None)} else {}) + ListedBare(rows[1..], roles)
  {
    assert forall x :: x in rows <==> x == rows[0] || x in rows[1..] by {
      assert rows == [rows[0]] + rows[1..];
    }
  }

  /**
    `pd.merge(df, df_roles, on="Name")`, an inner merge: each row once per
    matching Roles.csv line, rows whose Name is not in Roles.csv dropped.
  */
  function InnerJoin(rows: seq<Row>, roles: seq<RoleEntry>): (r: seq<Row>)
    ensures forall x :: x in r ==> x.name in RoleNames(roles)
    ensures Bare(r) <= Bare(rows)
    ensures Bare(r) == ListedBare(rows, roles)
  {
    if rows == [] then []
    else
      var head := InnerHead(rows[0], roles);
      var tail := InnerJoin(rows[1..], roles);
      BareAppend(head, tail);
      BareCons(rows);
      ListedBareCons(rows, roles);
      head + tail
  }

  /** The rows an inner merge makes from one survey row: one per matching line, none if unlisted. */
  function InnerHead(row: Row, roles: seq<RoleEntry>): (h: seq<Row>)
    ensures forall x :: x in h ==> x.name == row.name && row.name in RoleNames(roles)
    ensures Bare(h) == if row.name in RoleNames(roles) then {row.(role := None)} else {}
  {
    var matches := RolesFor(roles, row.name);
    if matches != [] then
      BareWithRoles(row, matches);
      WithRoles(row, matches)
    else
      assert Bare([]) == {};
      WithRoles(row, matches)
  }

  /** One survey row gives one copy per matching Roles.csv line, in file order, with that line's Role. */
  lemma InnerJoinLine(x: Row, roles: seq<RoleEntry>)
    ensures InnerJoin([x], roles) == WithRoles(x, RolesFor(roles, x.name))
  {
    assert [x][1..] == [];
  }

  /** The inner merge is the concatenation of each row's own merge, in table order. */
  lemma {:induction false} InnerJoinFlat(rows: seq<Row>, roles: seq<RoleEntry>)
    ensures InnerJoin(rows, roles) == FlatMap(x => InnerHead(x, roles), rows)
  {
    if rows != [] {
      InnerJoinFlat(rows[1..], roles);
    }
  }

  /** The inner merge of a table is that of its first part followed by that of the rest. */
  lemma {:induction false} InnerJoinAppend(a: seq<Row>, b: seq<Row>, roles: seq<RoleEntry>)
    ensures InnerJoin(a + b, roles) == InnerJoin(a, roles) + InnerJoin(b, roles)
  {
    InnerJoinFlat(a + b, roles);
    InnerJoinFlat(a, roles);
    InnerJoinFlat(b, roles);
    FlatMapAppend(x => InnerHead(x, roles), a, b);
  }

  /** The first rows of a left merge: the row once per match, or once with no Role. */
  function LeftHead(row: Row, roles: seq<RoleEntry>): (h: seq<Row>)
    ensures h != []
    ensures Bare(h) == {row.(role := None)}
  {
    var matches := RolesFor(roles, row.name);
    if matches == [] then
      assert Bare([row.(role := None)]) == {row.(role := None)} by {
        assert forall x :: x in [row.(role := None)] <==> x == row.(role := None);
      }
      [row.(role := None)]
    else
      BareWithRoles(row, matches);
      WithRoles(row, matches)
  }

  /**
    `pd.merge(df, df_roles, on="Name", how="left")`: as the inner merge, but a
    row whose Name is not in Roles.csv is kept once, with no Role.
  */
  function LeftJoin(rows: seq<Row>, roles: seq<RoleEntry>): (r: seq<Row>)
    ensures |r| >= |rows|
    ensures Bare(r) == Bare(rows)
  {
    if rows == [] then []
    else
      var head := LeftHead(rows[0], roles);
      var tail := LeftJoin(rows[1..], roles);
      BareAppend(head, tail);
      BareCons(rows);
      head + tail
  }

  /**
    One survey row gives one copy per matching Roles.csv line, in file order,
    with that line's Role; an unlisted row is kept once with no Role.
  */
  lemma LeftJoinLine(x: Row, roles: seq<RoleEntry>)
    ensures LeftJoin([x], roles) ==
      if x.name in RoleNames(roles) then WithRoles(x, RolesFor(roles, x.name)) else [x.(role := None)]
  {
    assert [x][1..] == [];
  }

  /** The left merge is the concatenation of each row's own merge, in table order. */
  lemma {:induction false} LeftJoinFlat(rows: seq<Row>, roles: seq<RoleEntry>)
    ensures LeftJoin(rows, roles) == FlatMap(x => LeftHead(x, roles), rows)
  {
    if rows != [] {
      LeftJoinFlat(rows[1..], roles);
    }
  }

  /** The left merge of a table is that of its first part followed by that of the rest. */
  lemma {:induction false} LeftJoinAppend(a: seq<Row>, b: seq<Row>, roles: seq<RoleEntry>)
    ensures LeftJoin(a + b, roles) == LeftJoin(a, roles) + LeftJoin(b, roles)
  {
    LeftJoinFlat(a + b, roles);
    LeftJoinFlat(a, roles);
    LeftJoinFlat(b, roles);
    FlatMapAppend(x => LeftHead(x, roles), a, b);
  }

  /** The rows whose Name appears in Roles.csv. */
  function KeepListed(rows: seq<Row>, roles: seq<RoleEntry>): seq<Row>
  {
    if rows == [] then []
    else (if rows[0].name in RoleNames(roles) then [rows[0]] else []) + KeepListed(rows[1..], roles)
  }

  lemma {:induction false} KeepListedAppend(a: seq<Row>, b: seq<Row>, roles: seq<RoleEntry>)
    ensures KeepListed(a + b, roles) == KeepListed(a, roles) + KeepListed(b, roles)
  {
    if a != [] {
      assert (a + b)[0] == a[0];
      assert (a + b)[1..] == a[1..] + b;
      KeepListedAppend(a[1..], b, roles);
      var here := if a[0].name in RoleNames(roles) then [a[0]] else [];
      assert KeepListed(a + b, roles) == here + KeepListed(a[1..] + b, roles);
    } else {
      assert a + b == b;
    }
  }

  /** The inner merge is the left merge without the rows it could not match. */
  lemma {:induction false} InnerJoinIsLeftJoinMatched(rows: seq<Row>, roles: seq<RoleEntry>)
    ensures InnerJoin(rows, roles) == KeepListed(LeftJoin(rows, roles), roles)
  {
    if rows != [] {
      var matches := RolesFor(roles, rows[0].name);
      var head := LeftHead(rows[0], roles);
      InnerJoinIsLeftJoinMatched(rows[1..], roles);
      KeepListedAppend(head, LeftJoin(rows[1..], roles), roles);
      KeepListedAll(head, roles, matches != []);
    }
  }

  lemma {:induction false} KeepListedAll(rows: seq<Row>, roles: seq<RoleEntry>, listed: bool)
    requires forall x :: x in rows ==> (x.name in RoleNames(roles) <==> listed)
    ensures KeepListed(rows, roles) == if listed then rows else []
  {
    if rows != [] {
      assert rows[0] in rows;
      assert forall x :: x in rows[1..] ==> x in rows;
      KeepListedAll(rows[1..], roles, listed);
    }
  }

  /** At most one Roles.csv line per Name. */
  predicate UniqueNames(roles: seq<RoleEntry>) {
    forall i, j :: 0 <= i < j < |roles| ==> roles[i].name != roles[j].name
  }

  /** The Role a left merge gives `name`: none when it is unlisted or its cell is empty. */
  function LookupRole(roles: seq<RoleEntry>, name: string): Option<string>
  {
    if roles == [] then None
    else if roles[0].name == name then roles[0].role
    else LookupRole(roles[1..], name)
  }

  lemma {:induction false} RolesForUnique(roles: seq<RoleEntry>, name: string)
    requires UniqueNames(roles)
    ensures name in RoleNames(roles) ==> RolesFor(roles, name) == [LookupRole(roles, name)]
  {
    if roles != [] {
      RolesForUnique(roles[1..], name);
      if roles[0].name == name {
        assert name !in RoleNames(roles[1..]);
      }
    }
  }

  /**
    With at most one Roles.csv line per Name, the left merge keeps every row
    exactly once, in order, and only sets its Role.
  */
  lemma {:induction false} LeftJoinUnique(rows: seq<Row>, roles: seq<RoleEntry>)
    requires UniqueNames(roles)
    ensures |LeftJoin(rows, roles)| == |rows|
    ensures forall i :: 0 <= i < |rows| ==> LeftJoin(rows, roles)[i] == rows[i].(role := LookupRole(roles, rows[i].name))
  {
    if rows != [] {
      RolesForUnique(roles, rows[0].name);
      LeftJoinUnique(rows[1..], roles);
      if rows[0].name !in RoleNames(roles) {
        LookupUnlisted(roles, rows[0].name);
      }
      var r := LeftJoin(rows, roles);
      forall i | 0 <= i < |rows|
        ensures r[i] == rows[i].(role := LookupRole(roles, rows[i].name))
      {
        if i > 0 {
          assert r[i] == LeftJoin(rows[1..], roles)[i - 1];
        }
      }
    }
  }

  lemma {:induction false} LookupUnlisted(roles: seq<RoleEntry>, name: string)
    requires name !in RoleNames(roles)
    ensures LookupRole(roles, name) == None
  {
    if roles != [] {
      assert roles[0] in roles;
      assert RoleNames(roles[1..]) <= RoleNames(roles);
      LookupUnlisted(roles[1..], name);
    }
  }

  /** `set(df.loc[df["Role"].isna(), "Name"])`: the distinct Names left without a Role. */
  function MissingNames(rows: seq<Row>): (r: set<string>)
    ensures forall i :: 0 <= i < |rows| && rows[i].role.None? ==> rows[i].name in r
    ensures forall n :: n in r ==> exists i :: 0 <= i < |rows| && rows[i].role.None? && rows[i].name == n
  {
    set x | x in rows && x.role.None? :: x.name
  }

  /** The Names that answered. */
  function Names(rows: seq<Row>): set<string>
  {
    set y | y in rows :: y.name
  }

  lemma NamesCons(rows: seq<Row>)
    requires rows != []
    ensures Names(rows) == {rows[0].name} + Names(rows[1..])
  {
    assert rows == [rows[0]] + rows[1..];
  }

  lemma MissingNamesAppend(a: seq<Row>, b: seq<Row>)
    ensures MissingNames(a + b) == MissingNames(a) + MissingNames(b)
  {
    assert forall x :: x in a + b <==> x in a || x in b;
  }

  /** The first rows of a left merge miss a Role exactly when the Name is unlisted or has an empty Role. */
  lemma MissingInLeftHead(row: Row, roles: seq<RoleEntry>, n: string)
    ensures n in MissingNames(LeftHead(row, roles)) <==>
      row.name == n && (RolesFor(roles, n) == [] || None in RolesFor(roles, n))
  {
    var matches := RolesFor(roles, row.name);
    var head := LeftHead(row, roles);
    if matches == [] {
      assert head == [row.(role := None)];
      assert head[0] in head;
    } else {
      assert head == WithRoles(row, matches);
      if row.name == n && None in matches {
        var j :| 0 <= j < |matches| && matches[j] == None;
        assert head[j] in head;
      }
    }
  }

  /**
    After the left merge, a Name is reported missing exactly when it answered
    the survey and is either absent from Roles.csv or listed there with an
    empty Role.
  */
  lemma {:induction false} MissingAfterLeftJoin(rows: seq<Row>, roles: seq<RoleEntry>, n: string)
    ensures n in MissingNames(LeftJoin(rows, roles)) <==>
      n in Names(rows) && (n !in RoleNames(roles) || None in RolesFor(roles, n))
  {
    if rows != [] {
      MissingAfterLeftJoin(rows[1..], roles, n);
      MissingNamesAppend(LeftHead(rows[0], roles), LeftJoin(rows[1..], roles));
      MissingInLeftHead(rows[0], roles, n);
      NamesCons(rows);
    }
  }

  /**
    `df.fillna({"Role": "Developer"})`: a row with a Role keeps it, a row
    without one gets "Developer", and nothing else changes.
  */
  function FillRole(rows: seq<Row>): (r: seq<Row>)
    ensures |r| == |rows|
    ensures forall i :: 0 <= i < |r| ==> r[i].role.Some?
    ensures forall i :: 0 <= i < |r| && rows[i].role.Some? ==> r[i] == rows[i]
    ensures forall i :: 0 <= i < |r| && rows[i].role.None? ==> r[i] == rows[i].(role := Some(DefaultRole))
  {
    seq(|rows|, i requires 0 <= i < |rows| => rows[i].(role := Some(rows[i].role.GetOr(DefaultRole))))
  }

  /** When no Name is missing, filling in the Role changes nothing (src/weekly.py:35-37). */
  lemma FillRoleNothingMissing(rows: seq<Row>)
    requires MissingNames(rows) == {}
    ensures FillRole(rows) == rows
  {
    forall i | 0 <= i < |rows|
      ensures rows[i].role.Some?
    {
      MissingNamesHas(rows, i);
    }
  }

  lemma MissingNamesHas(rows: seq<Row>, i: nat)
    requires i < |rows|
    ensures rows[i].role.None? ==> rows[i].name in MissingNames(rows)
  {
    assert rows[i] in rows;
  }

  /** Filling in Roles changes no row's other columns. */
  lemma FillRoleBare(rows: seq<Row>)
    ensures Bare(FillRole(rows)) == Bare(rows)
  {
    var r := FillRole(rows);
    forall x | x in Bare(r)
      ensures x in Bare(rows)
    {
      var i :| 0 <= i < |r| && x == r[i].(role := None);
      assert rows[i] in rows;
    }
    forall x | x in Bare(rows)
      ensures x in Bare(r)
    {
      var i :| 0 <= i < |rows| && x == rows[i].(role := None);
      assert r[i] in r;
    }
  }

  /** A table made from another by merging and filling keeps its numeric columns. */
  lemma BareKeepsNumeric(rows: seq<Row>, source: seq<Row>, q: Question)
    requires Bare(rows) <= Bare(source)
    requires HasNumeric(source, q)
    ensures HasNumeric(rows, q)
  {
    forall x | x in rows
      ensures q in x.numeric
    {
      assert x.(role := None) in Bare(rows);
    }
  }

  /** Every "Week ending" is a Friday. */
  predicate FridayWeeks(rows: seq<Row>) {
    forall x :: x in rows ==> Weekday(x.week) == Friday
  }

  /** No "Week ending" comes after `last`. */
  predicate WeeksUpTo(rows: seq<Row>, last: Option<Day>) {
    forall x :: x in rows ==> last.Some? && x.week <= last.value
  }

  /** A table made from another by merging and filling keeps its weeks. */
  lemma BareKeepsWeeks(rows: seq<Row>, source: seq<Row>, last: Option<Day>)
    requires Bare(rows) <= Bare(source)
    requires FridayWeeks(source) && WeeksUpTo(source, last)
    ensures FridayWeeks(rows) && WeeksUpTo(rows, last)
  {
    forall x | x in rows
      ensures Weekday(x.week) == Friday && last.Some? && x.week <= last.value
    {
      assert x.(role := None) in Bare(rows);
    }
  }

  /**
    The prepared table has every numeric column, its weeks are Fridays and
    none comes after its most recent week.
  */
  lemma PreparedShape(sheet: seq<Response>, qs: seq<Question>)
    requires Coercible(sheet, qs)
    ensures forall q :: q in qs ==> HasNumeric(Prepared(sheet, qs), q)
    ensures FridayWeeks(Prepared(sheet, qs))
    ensures WeeksUpTo(Prepared(sheet, qs), MostRecentWeek(Prepared(sheet, qs)))
  {
    var rows := Prepared(sheet, qs);
    forall x | x in rows
      ensures Weekday(x.week) == Friday
    {
      var i :| 0 <= i < |rows| && rows[i] == x;
      WeekEndingIsNearbyFriday(sheet[i].completed);
    }
    forall q, x | q in qs && x in rows
      ensures q in x.numeric
    {
      var i :| 0 <= i < |rows| && rows[i] == x;
      assert q in NumericAnswers(sheet[i], qs).Keys;
    }
    forall x | x in rows
      ensures MostRecentWeek(rows).Some? && x.week <= MostRecentWeek(rows).value
    {
      var i :| 0 <= i < |rows| && rows[i] == x;
    }
  }

  /** Every row has a Role: the state after `fillna`. */
  predicate AllRoled(rows: seq<Row>) {
    forall x :: x in rows ==> x.role.Some?
  }

  /**
    Filling the Role of merged rows keeps what the prepared table guarantees:
    the same rows apart from their Roles, every numeric column, Friday weeks
    up to the most recent one; and afterwards every row has a Role.
  */
  lemma FilledShape(rows: seq<Row>, source: seq<Row>, qs: seq<Question>, last: Option<Day>)
    requires Bare(rows) <= Bare(source)
    requires forall q :: q in qs ==> HasNumeric(source, q)
    requires FridayWeeks(source) && WeeksUpTo(source, last)
    ensures Bare(FillRole(rows)) == Bare(rows)
    ensures AllRoled(FillRole(rows))
    ensures forall q :: q in qs ==> HasNumeric(FillRole(rows), q)
    ensures FridayWeeks(FillRole(rows)) && WeeksUpTo(FillRole(rows), last)
  {
    var filled := FillRole(rows);
    FillRoleBare(rows);
    forall q | q in qs
      ensures HasNumeric(filled, q)
    {
      BareKeepsNumeric(filled, source, q);
    }
    BareKeepsWeeks(filled, source, last);
  }

  // ---------------------------------------------------------------------
  // Row selection

  /** `df.loc[df["Week ending"] == week]`, in row order; NaT matches nothing. */
  function InWeek(rows: seq<Row>, week: Option<Day>): (r: seq<Row>)
    ensures |r| <= |rows|
  {
    if rows == [] then []
    else (if Some(rows[0].week) == week then [rows[0]] else []) + InWeek(rows[1..], week)
  }

  /** The selection holds exactly the rows of that week. */
  lemma {:induction false} InWeekMembers(rows: seq<Row>, week: Option<Day>)
    ensures forall x :: x in InWeek(rows, week) <==> x in rows && Some(x.week) == week
  {
    if rows != [] {
      InWeekMembers(rows[1..], week);
      assert rows == [rows[0]] + rows[1..];
    }
  }

  lemma {:induction false} InWeekAppend(a: seq<Row>, b: seq<Row>, week: Option<Day>)
    ensures InWeek(a + b, week) == InWeek(a, week) + InWeek(b, week)
  {
    if a != [] {
      assert (a + b)[0] == a[0];
      assert (a + b)[1..] == a[1..] + b;
      InWeekAppend(a[1..], b, week);
      var here := if Some(a[0].week) == week then [a[0]] else [];
      assert InWeek(a + b, week) == here + InWeek(a[1..] + b, week);
    } else {
      assert a + b == b;
    }
  }

  lemma {:induction false} InWeekNone(rows: seq<Row>, week: Option<Day>)
    requires forall x :: x in rows ==> Some(x.week) != week
    ensures InWeek(rows, week) == []
  {
    if rows != [] {
      assert rows[0] in rows;
      assert forall x :: x in rows[1..] ==> x in rows;
      InWeekNone(rows[1..], week);
    }
  }

  /** Rows from other weeks add nothing to a week's selection. */
  lemma InWeekIgnoresOtherWeeks(rows: seq<Row>, others: seq<Row>, week: Option<Day>)
    requires forall x :: x in others ==> Some(x.week) != week
    ensures InWeek(rows + others, week) == InWeek(rows, week)
  {
    InWeekAppend(rows, others, week);
    InWeekNone(others, week);
  }

  // ---------------------------------------------------------------------
  // Trend means (src/main.py:208-230, src/weekly.py:87-98, src/monthly.py:111-122)

  predicate HasNumeric(rows: seq<Row>, q: Question) {
    forall x :: x in rows ==> q in x.numeric
  }

  /** The sum of the "Numeric: q" column. */
  function SumOf(rows: seq<Row>, q: Question): int
    requires HasNumeric(rows, q)
  {
    if rows == [] then 0 else rows[0].numeric[q] + SumOf(rows[1..], q)
  }

  /** Each row of the week is selected as many times as it occurs, and no other row is. */
  lemma {:induction false} InWeekCounts(rows: seq<Row>, week: Option<Day>)
    ensures forall x :: multiset(InWeek(rows, week))[x] == if Some(x.week) == week then multiset(rows)[x] else 0
  {
    if rows != [] {
      InWeekCounts(rows[1..], week);
      assert rows == [rows[0]] + rows[1..];
    }
  }

  /** The rows of one week, in row order: the selection of that week. */
  function WeekGroup(rows: seq<Row>, week: Day): (r: seq<Row>)
    ensures forall x :: x in r <==> x in rows && x.week == week
  {
    InWeekMembers(rows, Some(week));
    InWeek(rows, Some(week))
  }

  /** The rows of one week and one Role, in row order. */
  function RoleWeekGroup(rows: seq<Row>, week: Day, role: string): (r: seq<Row>)
    ensures forall x :: x in r <==> x in rows && x.week == week && x.role == Some(role)
  {
    if rows == [] then [] else GroupHead(rows[0], week, role) + RoleWeekGroup(rows[1..], week, role)
  }

  function GroupHead(x: Row, week: Day, role: string): seq<Row>
  {
    if x.week == week && x.role == Some(role) then [x] else []
  }

  /** Each row of the (week, Role) group is in it as many times as it occurs, and no other row is. */
  lemma {:induction false} RoleWeekGroupCounts(rows: seq<Row>, week: Day, role: string)
    ensures forall x ::
      multiset(RoleWeekGroup(rows, week, role))[x] == (if x.week == week && x.role == Some(role) then multiset(rows)[x] else 0)
  {
    if rows != [] {
      RoleWeekGroupCounts(rows[1..], week, role);
      assert rows == [rows[0]] + rows[1..];
    }
  }

  /** A (week, Role) group keeps row order. */
  lemma {:induction false} RoleWeekGroupAppend(a: seq<Row>, b: seq<Row>, week: Day, role: string)
    ensures RoleWeekGroup(a + b, week, role) == RoleWeekGroup(a, week, role) + RoleWeekGroup(b, week, role)
  {
    if a == [] {
      assert a + b == b;
    } else {
      RoleWeekGroupAppend(a[1..], b, week, role);
      calc {
        RoleWeekGroup(a + b, week, role);
        { ConsAppend(a, b); }
        GroupHead(a[0], week, role) + RoleWeekGroup(a[1..] + b, week, role);
        GroupHead(a[0], week, role) + RoleWeekGroup(a[1..], week, role) + RoleWeekGroup(b, week, role);
      }
    }
  }

  /** The (Week ending, Role) pairs present; rows without a Role form no group. */
  function RoleWeekKeys(rows: seq<Row>): set<(Day, string)> {
    set x | x in rows && x.role.Some? :: (x.week, x.role.value)
  }

  function Weeks(rows: seq<Row>): set<Day> {
    set x | x in rows :: x.week
  }

  /** Every (week, Role) key names a non-empty group, and the keys are exactly the pairs some row has. */
  lemma RoleWeekKeysHaveRows(rows: seq<Row>)
    ensures forall k :: k in RoleWeekKeys(rows) ==> |RoleWeekGroup(rows, k.0, k.1)| > 0
    ensures forall week, role :: (week, role) in RoleWeekKeys(rows) <==> exists x :: x in rows && x.week == week && x.role == Some(role)
  {
    forall k | k in RoleWeekKeys(rows)
      ensures |RoleWeekGroup(rows, k.0, k.1)| > 0
    {
      var x :| x in rows && x.role.Some? && k == (x.week, x.role.value);
      assert x in RoleWeekGroup(rows, k.0, k.1);
    }
    forall week, role | exists x :: x in rows && x.week == week && x.role == Some(role)
      ensures (week, role) in RoleWeekKeys(rows)
    {
      var x :| x in rows && x.week == week && x.role == Some(role);
      assert (x.week, x.role.value) in RoleWeekKeys(rows);
    }
  }

  /** Every week key names a non-empty group. */
  lemma WeeksHaveRows(rows: seq<Row>)
    ensures forall w :: w in Weeks(rows) ==> |WeekGroup(rows, w)| > 0
  {
    forall w | w in Weeks(rows)
      ensures |WeekGroup(rows, w)| > 0
    {
      var x :| x in rows && x.week == w;
      assert x in WeekGroup(rows, w);
    }
  }

  function MeanOf(group: seq<Row>, q: Question): Mean
    requires HasNumeric(group, q)
  {
    Mean(SumOf(group, q), |group|)
  }

  /** `df.groupby(["Week ending", "Role"])["Numeric: q"].mean()`: the bar-question trend. */
  function RoleWeekTrend(rows: seq<Row>, q: Question): (r: map<(Day, string), Mean>)
    requires HasNumeric(rows, q)
    ensures forall week, role :: (week, role) in r <==> exists x :: x in rows && x.week == week && x.role == Some(role)
    ensures forall k :: k in r ==> r[k] == MeanOf(RoleWeekGroup(rows, k.0, k.1), q) && r[k].count > 0
  {
    RoleWeekKeysHaveRows(rows);
    var r := map k | k in RoleWeekKeys(rows) :: MeanOf(RoleWeekGroup(rows, k.0, k.1), q);
    assert r.Keys == RoleWeekKeys(rows);
    r
  }

  /** `df.groupby(["Week ending"])["Numeric: q"].mean()`: the pie-question trend. */
  function WeekTrend(rows: seq<Row>, q: Question): (r: map<Day, Mean>)
    requires HasNumeric(rows, q)
    ensures forall week :: week in r <==> exists x :: x in rows && x.week == week
    ensures forall w :: w in r ==> r[w] == MeanOf(WeekGroup(rows, w), q) && r[w].count > 0
  {
    WeeksHaveRows(rows);
    map w | w in Weeks(rows) :: MeanOf(WeekGroup(rows, w), q)
  }

  /**
    The bar trend has one point per (week, Role) that some row has, and each
    point averages exactly that group's answers, of which there is at least one.
  */
  lemma RoleWeekTrendPoints(rows: seq<Row>, q: Question, week: Day, role: string)
    requires HasNumeric(rows, q)
    ensures (week, role) in RoleWeekTrend(rows, q) <==> exists x :: x in rows && x.week == week && x.role == Some(role)
    ensures (week, role) in RoleWeekTrend(rows, q) ==>
      RoleWeekTrend(rows, q)[(week, role)] == MeanOf(RoleWeekGroup(rows, week, role), q) &&
      RoleWeekTrend(rows, q)[(week, role)].count > 0
  {
    if exists x :: x in rows && x.week == week && x.role == Some(role) {
      var x :| x in rows && x.week == week && x.role == Some(role);
      assert (x.week, x.role.value) in RoleWeekKeys(rows);
      assert x in RoleWeekGroup(rows, week, role);
    }
  }

  /** The pie trend has one point per week that some row has, averaging all of that week's answers. */
  lemma WeekTrendPoints(rows: seq<Row>, q: Question, week: Day)
    requires HasNumeric(rows, q)
    ensures week in WeekTrend(rows, q) <==> exists x :: x in rows && x.week == week
    ensures week in WeekTrend(rows, q) ==>
      WeekTrend(rows, q)[week] == MeanOf(WeekGroup(rows, week), q) && WeekTrend(rows, q)[week].count > 0
  {
    if exists x :: x in rows && x.week == week {
      var x :| x in rows && x.week == week;
      assert x in WeekGroup(rows, week);
    }
  }

  /** A sum of answers that all lie in [lo, hi] lies between `lo` and `hi` times their number. */
  lemma {:induction false} SumWithin(rows: seq<Row>, q: Question, lo: int, hi: int)
    requires HasNumeric(rows, q)
    requires forall x :: x in rows ==> lo <= x.numeric[q] <= hi
    ensures lo * |rows| <= SumOf(rows, q) <= hi * |rows|
  {
    if rows != [] {
      assert rows[0] in rows;
      assert forall x :: x in rows[1..] ==> x in rows;
      SumWithin(rows[1..], q, lo, hi);
      MulStep(lo, |rows[1..]|);
      MulStep(hi, |rows[1..]|);
    }
  }

  lemma MulStep(c: int, n: nat)
    ensures c * (n + 1) == c * n + c
  {
  }

  /** Every trend point lies between the smallest and largest answer given. */
  lemma TrendWithinAnswers(rows: seq<Row>, q: Question, lo: int, hi: int)
    requires HasNumeric(rows, q)
    requires forall x :: x in rows ==> lo <= x.numeric[q] <= hi
    ensures forall k :: k in RoleWeekTrend(rows, q) ==>
      lo * RoleWeekTrend(rows, q)[k].count <= RoleWeekTrend(rows, q)[k].sum <= hi * RoleWeekTrend(rows, q)[k].count
    ensures forall w :: w in WeekTrend(rows, q) ==>
      lo * WeekTrend(rows, q)[w].count <= WeekTrend(rows, q)[w].sum <= hi * WeekTrend(rows, q)[w].count
  {
    forall k | k in RoleWeekTrend(rows, q)
      ensures lo * RoleWeekTrend(rows, q)[k].count <= RoleWeekTrend(rows, q)[k].sum <= hi * RoleWeekTrend(rows, q)[k].count
    {
      SumWithin(RoleWeekGroup(rows, k.0, k.1), q, lo, hi);
    }
    forall w | w in WeekTrend(rows, q)
      ensures lo * WeekTrend(rows, q)[w].count <= WeekTrend(rows, q)[w].sum <= hi * WeekTrend(rows, q)[w].count
    {
      SumWithin(WeekGroup(rows, w), q, lo, hi);
    }
  }

  lemma {:induction false} SingleRoleGroup(rows: seq<Row>, week: Day, role: string)
    requires forall x :: x in rows && x.week == week ==> x.role == Some(role)
    ensures RoleWeekGroup(rows, week, role) == WeekGroup(rows, week)
  {
    if rows != [] {
      assert rows[0] in rows;
      assert forall x :: x in rows[1..] ==> x in rows;
      SingleRoleGroup(rows[1..], week, role);
    }
  }

  /** In a week where everyone has the same Role, the bar trend point equals the pie trend point. */
  lemma SingleRoleTrendsAgree(rows: seq<Row>, q: Question, week: Day, role: string)
    requires HasNumeric(rows, q)
    requires exists x :: x in rows && x.week == week
    requires forall x :: x in rows && x.week == week ==> x.role == Some(role)
    ensures (week, role) in RoleWeekTrend(rows, q) && week in WeekTrend(rows, q)
    ensures RoleWeekTrend(rows, q)[(week, role)] == WeekTrend(rows, q)[week]
  {
    RoleWeekTrendPoints(rows, q, week, role);
    WeekTrendPoints(rows, q, week);
    SingleRoleGroup(rows, week, role);
  }

  // ---------------------------------------------------------------------
  // Panels

  /** Which list of the dashboard's questions a question is in. */
  datatype QuestionKind = BarQuestion | PieQuestion | PictureQuestion | FreeTextQuestion | Unlisted

  predicate IsNumericKind(kind: QuestionKind) {
    kind.BarQuestion? || kind.PieQuestion?
  }

  /** The bottom panel: a trend line per Role, one overall trend line, or the blank image. */
  datatype TrendPanel =
    | RoleWeekLine(points: map<(Day, string), Mean>)
    | WeekLine(weekly: map<Day, Mean>)
    | NoTrend

  /**
    `update_bottom_graph`: a bar question gets its mean per (week, Role), a pie
    question its mean per week, anything else the blank image.
  */
  function BottomPanel(kind: QuestionKind, rows: seq<Row>, q: Question): (p: TrendPanel)
    requires IsNumericKind(kind) ==> HasNumeric(rows, q)
    ensures p.NoTrend? <==> !IsNumericKind(kind)
    ensures kind.BarQuestion? ==> p == RoleWeekLine(RoleWeekTrend(rows, q))
    ensures kind.PieQuestion? ==> p == WeekLine(WeekTrend(rows, q))
    ensures p.RoleWeekLine? ==> forall k :: k in p.points ==> p.points[k].count > 0
    ensures p.WeekLine? ==> forall w :: w in p.weekly ==> p.weekly[w].count > 0
  {
    match kind
    case BarQuestion =>
      var points := RoleWeekTrend(rows, q);
      assert forall k :: k in points ==> points[k].count > 0 by {
        forall k | k in points
          ensures points[k].count > 0
        {
          RoleWeekTrendPoints(rows, q, k.0, k.1);
        }
      }
      RoleWeekLine(points)
    case PieQuestion =>
      var weekly := WeekTrend(rows, q);
      assert forall w :: w in weekly ==> weekly[w].count > 0 by {
        forall w | w in weekly
          ensures weekly[w].count > 0
        {
          WeekTrendPoints(rows, q, w);
        }
      }
      WeekLine(weekly)
    case _ => NoTrend
  }
}
