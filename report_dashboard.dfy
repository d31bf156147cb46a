/**
  The weekly and monthly dashboards (src/weekly.py, src/monthly.py). Both load
  the table as src/main.py does, but merge with Roles.csv keeping every survey
  row, report the Names that have no Role, and default those to "Developer".
  The monthly one also shows the free-text answers of the most recent week.
*/
module ReportDashboard {
  import opened Wrappers
  import opened Dates
  import opened Coercion
  import opened Frame
  import opened Sequences

  /** What the module-level code of src/weekly.py or src/monthly.py leaves behind. */
  datatype Report = Report(
    rows: seq<Row>,
    mostRecentWeek: Option<Day>,
    missingInRolesTable: set<string>)

  /**
    The module-level pipeline of src/weekly.py:20-37 and src/monthly.py:21-38:
    numeric columns for the listed questions, "Week ending", the most recent
    week, the left merge with Roles.csv, the distinct Names left without a
    Role, and the "Developer" default applied only when some Name is missing.
  */
  method LoadReport(sheet: seq<Response>, numericQuestions: seq<Question>, roles: seq<RoleEntry>)
    returns (r: Result<Report, LoadError>)
    ensures r.Ok? <==> sheet != [] && Coercible(sheet, numericQuestions)
    ensures r == Err(NoDates) <==> sheet == []
    ensures r.Err? && r.error.BadNumber? ==> r.error.question in numericQuestions && r.error.row < |sheet|
    ensures r.Err? && r.error.BadNumber? ==> HandlingBadNumbers(Answer(sheet[r.error.row].answers, r.error.question)) == Err(r.error.cause)
    ensures r.Err? ==> r.error.NoDates? || FirstBadCell(sheet, numericQuestions, r.error)
    ensures r.Ok? ==> r.value.mostRecentWeek.Some?
    ensures r.Ok? ==> r.value.mostRecentWeek == MostRecentWeek(Prepared(sheet, numericQuestions))
    ensures r.Ok? ==> r.value.missingInRolesTable == MissingNames(LeftJoin(Prepared(sheet, numericQuestions), roles))
    ensures r.Ok? ==> r.value.rows == FillRole(LeftJoin(Prepared(sheet, numericQuestions), roles))
    ensures r.Ok? ==> AllRoled(r.value.rows)
    ensures r.Ok? ==> Bare(r.value.rows) == Bare(Prepared(sheet, numericQuestions))
    ensures r.Ok? ==> forall q :: q in numericQuestions ==> HasNumeric(r.value.rows, q)
    ensures r.Ok? ==> FridayWeeks(r.value.rows) && WeeksUpTo(r.value.rows, r.value.mostRecentWeek)
  {
    var numeric :- CreateNumericColumns(sheet, numericQuestions);
    if sheet == [] {
      return Err(NoDates);
    }
    var prepared := seq(|sheet|, i requires 0 <= i < |sheet| =>
      Row(sheet[i].name, sheet[i].answers, numeric[i], sheet[i].completed, WeekEnding(sheet[i].completed), None));
    PreparedFromColumns(sheet, numericQuestions, numeric, prepared);
    var mostRecentWeek := MostRecentWeek(prepared);
    PreparedShape(sheet, numericQuestions);
    var joined := LeftJoin(prepared, roles);
    FilledShape(joined, prepared, numericQuestions, mostRecentWeek);
    assert joined == LeftJoin(Prepared(sheet, numericQuestions), roles);
    var missingInRolesTable := MissingNames(joined);
    var df := joined;
    if |missingInRolesTable| > 0 {
      df := FillRole(joined);
    } else {
      FillRoleNothingMissing(joined);
    }
    return Ok(Report(df, mostRecentWeek, missingInRolesTable));
  }

  /**
    A Name that answered the survey but is absent from Roles.csv, or listed
    there with an empty Role, is reported missing and is kept in the table
    with the Role "Developer".
  */
  lemma ReportKeepsEveryone(sheet: seq<Response>, numericQuestions: seq<Question>, roles: seq<RoleEntry>, n: string)
    requires Coercible(sheet, numericQuestions)
    requires exists i :: 0 <= i < |sheet| && sheet[i].name == n
    requires n !in RoleNames(roles) || None in RolesFor(roles, n)
    ensures n in MissingNames(LeftJoin(Prepared(sheet, numericQuestions), roles))
    ensures exists x :: x in FillRole(LeftJoin(Prepared(sheet, numericQuestions), roles)) && x.name == n && x.role == Some(DefaultRole)
  {
    var rows := Prepared(sheet, numericQuestions);
    var i :| 0 <= i < |sheet| && sheet[i].name == n;
    assert rows[i].name == n;
    assert rows[i] in rows;
    KeptAsDeveloper(rows, roles, n);
  }

  /** A Name of the table without a Role in Roles.csv is missing after the left merge, and filled as "Developer". */
  lemma KeptAsDeveloper(rows: seq<Row>, roles: seq<RoleEntry>, n: string)
    requires exists x :: x in rows && x.name == n
    requires n !in RoleNames(roles) || None in RolesFor(roles, n)
    ensures n in MissingNames(LeftJoin(rows, roles))
    ensures exists x :: x in FillRole(LeftJoin(rows, roles)) && x.name == n && x.role == Some(DefaultRole)
  {
    assert n in Names(rows);
    MissingAfterLeftJoin(rows, roles, n);
    var joined := LeftJoin(rows, roles);
    var x :| x in joined && x.role.None? && x.name == n;
    var k :| 0 <= k < |joined| && joined[k] == x;
    assert FillRole(joined)[k] in FillRole(joined);
  }

  // ---------------------------------------------------------------------
  // Free-text snapshot (src/monthly.py:77-80)

  /** `df.loc[df["Week ending"] == week, q].to_list()`: the raw answers of that week, in row order. */
  function FreeTextSnapshot(rows: seq<Row>, week: Option<Day>, q: Question): (texts: seq<Cell>)
    ensures |texts| <= |rows|
  {
    if rows == [] then []
    else FreeTextOf(rows[0], week, q) + FreeTextSnapshot(rows[1..], week, q)
  }

  /** The answer one row contributes: its raw answer when it is of `week`. */
  function FreeTextOf(x: Row, week: Option<Day>, q: Question): seq<Cell>
  {
    if Some(x.week) == week then [Answer(x.answers, q)] else []
  }

  /** The snapshot is the week's rows' raw answers, one per row, uncoerced and in order. */
  lemma {:induction false} FreeTextSnapshotIsWeekAnswers(rows: seq<Row>, week: Option<Day>, q: Question)
    ensures |FreeTextSnapshot(rows, week, q)| == |InWeek(rows, week)|
    ensures forall i :: 0 <= i < |FreeTextSnapshot(rows, week, q)| ==>
      FreeTextSnapshot(rows, week, q)[i] == Answer(InWeek(rows, week)[i].answers, q)
  {
    if rows != [] {
      FreeTextSnapshotIsWeekAnswers(rows[1..], week, q);
      var texts, selected := FreeTextSnapshot(rows, week, q), InWeek(rows, week);
      var tail, tailSelected := FreeTextSnapshot(rows[1..], week, q), InWeek(rows[1..], week);
      if Some(rows[0].week) == week {
        assert texts == [Answer(rows[0].answers, q)] + tail;
        assert selected == [rows[0]] + tailSelected;
        forall i | 1 <= i < |texts|
          ensures texts[i] == Answer(selected[i].answers, q)
        {
          assert texts[i] == tail[i - 1];
          assert selected[i] == tailSelected[i - 1];
        }
      } else {
        assert texts == tail;
        assert selected == tailSelected;
      }
    }
  }

  /** Row order is kept: the snapshot of two tables one after the other is the concatenation. */
  lemma {:induction false} FreeTextSnapshotAppend(a: seq<Row>, b: seq<Row>, week: Option<Day>, q: Question)
    ensures FreeTextSnapshot(a + b, week, q) == FreeTextSnapshot(a, week, q) + FreeTextSnapshot(b, week, q)
  {
    if a == [] {
      assert a + b == b;
    } else {
      FreeTextSnapshotAppend(a[1..], b, week, q);
      calc {
        FreeTextSnapshot(a + b, week, q);
        { ConsAppend(a, b); }
        FreeTextOf(a[0], week, q) + FreeTextSnapshot(a[1..] + b, week, q);
        FreeTextOf(a[0], week, q) + FreeTextSnapshot(a[1..], week, q) + FreeTextSnapshot(b, week, q);
      }
    }
  }

  // ---------------------------------------------------------------------
  // Trend panel (src/weekly.py:87-103, src/monthly.py:111-127)

  /**
    `update_bottom_graph` of a report: the same trends as the main dashboard;
    a picture or free-text question falls through to the blank image.
  */
  function ReportBottomPanel(kind: QuestionKind, r: Report, q: Question): (p: TrendPanel)
    requires IsNumericKind(kind) ==> HasNumeric(r.rows, q)
    ensures kind.FreeTextQuestion? || kind.PictureQuestion? ==> p.NoTrend?
    ensures kind.Unlisted? ==> p.NoTrend?
    ensures kind.BarQuestion? ==> p.RoleWeekLine? && p.points.Keys == RoleWeekKeys(r.rows)
    ensures kind.PieQuestion? ==> p.WeekLine? && p.weekly.Keys == Weeks(r.rows)
    ensures kind.BarQuestion? ==> p == RoleWeekLine(RoleWeekTrend(r.rows, q))
    ensures kind.PieQuestion? ==> p == WeekLine(WeekTrend(r.rows, q))
    ensures kind.BarQuestion? ==> forall k :: k in p.points ==> p.points[k] == MeanOf(RoleWeekGroup(r.rows, k.0, k.1), q)
    ensures kind.PieQuestion? ==> forall w :: w in p.weekly ==> p.weekly[w] == MeanOf(WeekGroup(r.rows, w), q)
  {
    BottomPanel(kind, r.rows, q)
  }
}
