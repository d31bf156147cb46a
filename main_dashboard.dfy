/**
  The main weekly dashboard (src/main.py): loading the survey table, the
  workload e-mail list, and the "This week" and "Over time" panels.
  The question lists are those of src/config.py.
*/
module MainDashboard {
  import opened Wrappers
  import opened Dates
  import opened Coercion
  import opened Frame
  import opened Sequences

  const BarQuestions: seq<Question> := [
    "How many hours did you spend pair coding?",
    "How many hours did you spend doing something new?",
    "How many three-hour development blocks did you get?"
  ]

  const PieQuestions: seq<Question> := [
    "Please describe your overall stress level for the week",
    "How much sleep did you get on average?"
  ]

  const FunQuestion: Question := "Fun question"

  const PictureQuestions: seq<Question> := [FunQuestion]

  const WorkloadQuestion: Question := "Would you like to discuss your current workload with Will or Hansa?"

  /** The questions that get a "Numeric: ..." column, bar questions first. */
  const NumericQuestions: seq<Question> := BarQuestions + PieQuestions

  /** The dropdown's branches are tried in this order: bar, pie, picture. */
  function KindOf(q: Question): (kind: QuestionKind)
    ensures kind.BarQuestion? <==> q in BarQuestions
    ensures kind.PieQuestion? <==> q in PieQuestions
    ensures kind.PictureQuestion? <==> q in PictureQuestions
    ensures IsNumericKind(kind) <==> q in NumericQuestions
    ensures kind.Unlisted? <==> q !in NumericQuestions && q !in PictureQuestions
    ensures !kind.FreeTextQuestion?
  {
    if q in BarQuestions then BarQuestion
    else if q in PieQuestions then PieQuestion
    else if q in PictureQuestions then PictureQuestion
    else Unlisted
  }

  /** What the module-level code of src/main.py leaves behind. */
  datatype Dashboard = Dashboard(
    rows: seq<Row>,
    mostRecentWeek: Option<Day>,
    discussWorkload: seq<string>,
    emailAttempted: bool)

  /** What every loaded dashboard satisfies. */
  predicate Loaded(d: Dashboard) {
    && AllRoled(d.rows)
    && (forall q :: q in NumericQuestions ==> HasNumeric(d.rows, q))
    && FridayWeeks(d.rows)
    && WeeksUpTo(d.rows, d.mostRecentWeek)
    && (d.emailAttempted <==> d.discussWorkload != [])
  }

  // ---------------------------------------------------------------------
  // The workload list (src/main.py:40-48)

  /**
    The Names of the rows of `week` whose workload answer is exactly "Yes",
    in row order.
  */
  function WorkloadFlags(rows: seq<Row>, week: Option<Day>): (names: seq<string>)
    ensures |names| <= |rows|
  {
    if rows == [] then [] else FlagOf(rows[0], week) + WorkloadFlags(rows[1..], week)
  }

  /** The Name of one row if it answered "Yes" in that week. */
  function FlagOf(x: Row, week: Option<Day>): seq<string>
  {
    if Some(x.week) == week && Answer(x.answers, WorkloadQuestion) == Text("Yes") then [x.name] else []
  }

  /** A Name is on the list exactly when one of its rows of that week answered "Yes". */
  lemma {:induction false} WorkloadFlagsMembers(rows: seq<Row>, week: Option<Day>, n: string)
    ensures n in WorkloadFlags(rows, week) <==>
      exists x :: x in rows && Some(x.week) == week && Answer(x.answers, WorkloadQuestion) == Text("Yes") && x.name == n
  {
    if rows != [] {
      WorkloadFlagsMembers(rows[1..], week, n);
      assert rows == [rows[0]] + rows[1..];
    }
  }

  /** The list follows row order: the flags of two tables one after the other are concatenated. */
  lemma {:induction false} WorkloadFlagsAppend(a: seq<Row>, b: seq<Row>, week: Option<Day>)
    ensures WorkloadFlags(a + b, week) == WorkloadFlags(a, week) + WorkloadFlags(b, week)
  {
    if a == [] {
      assert a + b == b;
    } else {
      WorkloadFlagsAppend(a[1..], b, week);
      calc {
        WorkloadFlags(a + b, week);
        { ConsAppend(a, b); }
        FlagOf(a[0], week) + WorkloadFlags(a[1..] + b, week);
        FlagOf(a[0], week) + WorkloadFlags(a[1..], week) + WorkloadFlags(b, week);
      }
    }
  }

  // ---------------------------------------------------------------------
  // Loading (src/main.py:24-48)

  /**
    The module-level pipeline of src/main.py: numeric columns, "Week ending",
    the most recent week (taken before the merge), the inner merge with
    Roles.csv, the "Developer" default, and the workload list. The e-mail is
    attempted exactly when the list is not empty.
  */
  method LoadMain(sheet: seq<Response>, roles: seq<RoleEntry>) returns (r: Result<Dashboard, LoadError>)
    ensures r.Ok? <==> sheet != [] && Coercible(sheet, NumericQuestions)
    ensures r == Err(NoDates) <==> sheet == []
    ensures r.Err? && r.error.BadNumber? ==> r.error.question in NumericQuestions && r.error.row < |sheet|
    ensures r.Err? && r.error.BadNumber? ==> HandlingBadNumbers(Answer(sheet[r.error.row].answers, r.error.question)) == Err(r.error.cause)
    ensures r.Err? ==> r.error.NoDates? || FirstBadCell(sheet, NumericQuestions, r.error)
    ensures r.Ok? ==> r.value.mostRecentWeek.Some?
    ensures r.Ok? ==> Loaded(r.value)
    ensures r.Ok? ==> r.value.rows == FillRole(InnerJoin(Prepared(sheet, NumericQuestions), roles))
    ensures r.Ok? ==> r.value.mostRecentWeek == MostRecentWeek(Prepared(sheet, NumericQuestions))
    ensures r.Ok? ==> r.value.discussWorkload == WorkloadFlags(r.value.rows, r.value.mostRecentWeek)
  {
    var numeric :- CreateNumericColumns(sheet, NumericQuestions);
    if sheet == [] {
      return Err(NoDates);
    }
    var df := seq(|sheet|, i requires 0 <= i < |sheet| =>
      Row(sheet[i].name, sheet[i].answers, numeric[i], sheet[i].completed, WeekEnding(sheet[i].completed), None));
    PreparedFromColumns(sheet, NumericQuestions, numeric, df);
    var mostRecentWeek := MostRecentWeek(df);
    PreparedShape(sheet, NumericQuestions);
    df := InnerJoin(df, roles);
    FilledShape(df, Prepared(sheet, NumericQuestions), NumericQuestions, mostRecentWeek);
    df := FillRole(df);
    var discussWorkload := WorkloadFlags(df, mostRecentWeek);
    var emailAttempted := |discussWorkload| > 0;
    return Ok(Dashboard(df, mostRecentWeek, discussWorkload, emailAttempted));
  }

  // ---------------------------------------------------------------------
  // Bar snapshot (src/main.py:113-121)

  /** One (numeric answer, Role) pair per row; rows without a Role are in no group. */
  function BarTally(rows: seq<Row>, q: Question): (counts: multiset<(int, string)>)
    requires HasNumeric(rows, q)
    ensures |counts| <= |rows|
    ensures AllRoled(rows) ==> |counts| == |rows|
  {
    if rows == [] then multiset{}
    else
      assert rows[0] in rows;
      BarHead(rows[0], q) + BarTally(rows[1..], q)
  }

  /** What one row adds to the bars: its (value, Role) pair, or nothing without a Role. */
  function BarHead(x: Row, q: Question): multiset<(int, string)>
    requires q in x.numeric
  {
    if x.role.Some? then multiset{(x.numeric[q], x.role.value)} else multiset{}
  }

  /** The bars of two stretches of rows add up. */
  lemma {:induction false} BarTallyAppend(a: seq<Row>, b: seq<Row>, q: Question)
    requires HasNumeric(a, q) && HasNumeric(b, q)
    ensures HasNumeric(a + b, q)
    ensures BarTally(a + b, q) == BarTally(a, q) + BarTally(b, q)
  {
    if a == [] {
      assert a + b == b;
    } else {
      assert a[0] in a;
      BarTallyAppend(a[1..], b, q);
      calc {
        BarTally(a + b, q);
        { ConsAppend(a, b); }
        BarHead(a[0], q) + BarTally(a[1..] + b, q);
        BarHead(a[0], q) + BarTally(a[1..], q) + BarTally(b, q);
      }
    }
  }

  /** One row with a Role gives one bar of height one at (its value, its Role); one without gives none. */
  lemma BarTallyLine(x: Row, q: Question)
    requires q in x.numeric
    ensures x.role.Some? ==> BarTally([x], q) == multiset{(x.numeric[q], x.role.value)}
    ensures x.role.None? ==> BarTally([x], q) == multiset{}
  {
    assert [x][1..] == [];
  }

  /**
    `groupby(["Numeric: q", "Role"]).count()` over the rows of the most recent
    week: the multiplicity of (v, role) is the number of such rows.
  */
  function BarSnapshot(rows: seq<Row>, week: Option<Day>, q: Question): (counts: multiset<(int, string)>)
    requires HasNumeric(rows, q)
    ensures |counts| <= |InWeek(rows, week)|
    ensures AllRoled(rows) ==> |counts| == |InWeek(rows, week)|
  {
    InWeekMembers(rows, week);
    BarTally(InWeek(rows, week), q)
  }

  lemma {:induction false} BarTallyGroups(rows: seq<Row>, q: Question, v: int, role: string)
    requires HasNumeric(rows, q)
    ensures (v, role) in BarTally(rows, q) <==> exists x :: x in rows && x.numeric[q] == v && x.role == Some(role)
  {
    if rows != [] {
      assert rows[0] in rows;
      BarTallyGroups(rows[1..], q, v, role);
      assert rows == [rows[0]] + rows[1..];
    }
  }

  /** A (value, Role) bar exists exactly when some row of the week has that answer and Role. */
  lemma BarSnapshotGroups(rows: seq<Row>, week: Option<Day>, q: Question, v: int, role: string)
    requires HasNumeric(rows, q)
    ensures (v, role) in BarSnapshot(rows, week, q) <==>
      exists x :: x in rows && Some(x.week) == week && x.numeric[q] == v && x.role == Some(role)
  {
    InWeekMembers(rows, week);
    BarTallyGroups(InWeek(rows, week), q, v, role);
  }

  /** Once every row has a Role, the bars add up to the number of rows of the week. */
  lemma BarSnapshotTotal(rows: seq<Row>, week: Option<Day>, q: Question)
    requires HasNumeric(rows, q) && AllRoled(rows)
    ensures |BarSnapshot(rows, week, q)| == |InWeek(rows, week)|
  {
    InWeekMembers(rows, week);
  }

  /** Rows from other weeks contribute nothing to the bars. */
  lemma BarSnapshotIgnoresOtherWeeks(rows: seq<Row>, others: seq<Row>, week: Option<Day>, q: Question)
    requires HasNumeric(rows + others, q)
    requires forall x :: x in others ==> Some(x.week) != week
    ensures HasNumeric(rows, q)
    ensures BarSnapshot(rows + others, week, q) == BarSnapshot(rows, week, q)
  {
    InWeekIgnoresOtherWeeks(rows, others, week);
  }

  /** Three rows of one week: values 3, 3 and 5 with Roles X, Y and X give three bars of height one. */
  lemma BarSnapshotExample(a: Row, b: Row, c: Row, q: Question)
    requires a.week == b.week == c.week
    requires a.numeric == b.numeric == map[q := 3] && c.numeric == map[q := 5]
    requires a.role == Some("X") && b.role == Some("Y") && c.role == Some("X")
    ensures BarSnapshot([a, b, c], Some(a.week), q) == multiset{(3, "X"), (3, "Y"), (5, "X")}
  {
    var w := Some(a.week);
    assert [a, b, c][1..] == [b, c];
    assert [b, c][1..] == [c];
    assert [c][1..] == [];
    assert InWeek([c], w) == [c];
    assert InWeek([b, c], w) == [b, c];
    assert InWeek([a, b, c], w) == [a, b, c];
    BarTallyLine(a, q);
    BarTallyLine(b, q);
    BarTallyLine(c, q);
    assert [b] + [c] == [b, c];
    assert [a] + [b, c] == [a, b, c];
    BarTallyAppend([b], [c], q);
    BarTallyAppend([a], [b, c], q);
  }

  // ---------------------------------------------------------------------
  // Pie snapshot (src/main.py:137-147)

  /** One slice: a raw answer, its numeric value, and how many rows gave that pair. */
  datatype PieSlice = PieSlice(answer: Cell, value: int, count: nat)

  predicate NoDuplicates<T(==)>(s: seq<T>) {
    forall i, j :: 0 <= i < j < |s| ==> s[i] != s[j]
  }

  /** The distinct elements of `s`. */
  function Distinct<T(==,!new)>(s: seq<T>): (d: seq<T>)
    ensures NoDuplicates(d)
    ensures forall x :: x in d <==> x in s
  {
    if s == [] then []
    else if s[0] in s[1..] then Distinct(s[1..])
    else [s[0]] + Distinct(s[1..])
  }

  predicate SortedByValue(s: seq<(Cell, int)>) {
    forall i, j :: 0 <= i < j < |s| ==> s[i].1 <= s[j].1
  }

  function InsertByValue(p: (Cell, int), s: seq<(Cell, int)>): seq<(Cell, int)>
  {
    if s == [] || p.1 <= s[0].1 then [p] + s
    else [s[0]] + InsertByValue(p, s[1..])
  }

  /** Inserting a pair no smaller than a bound into pairs no smaller than it keeps them all above it. */
  lemma {:induction false} InsertKeepsLowerBound(p: (Cell, int), s: seq<(Cell, int)>, m: int)
    requires p.1 >= m
    requires forall k :: 0 <= k < |s| ==> s[k].1 >= m
    ensures forall k :: 0 <= k < |InsertByValue(p, s)| ==> InsertByValue(p, s)[k].1 >= m
  {
    if s != [] && p.1 > s[0].1 {
      InsertKeepsLowerBound(p, s[1..], m);
    }
  }

  /** Inserting into a list sorted by value keeps it sorted. */
  lemma {:induction false} InsertByValueSorted(p: (Cell, int), s: seq<(Cell, int)>)
    requires SortedByValue(s)
    ensures SortedByValue(InsertByValue(p, s))
  {
    if s != [] && p.1 > s[0].1 {
      var rest := InsertByValue(p, s[1..]);
      InsertByValueSorted(p, s[1..]);
      InsertKeepsLowerBound(p, s[1..], s[0].1);
      var r := [s[0]] + rest;
      forall i, j | 0 <= i < j < |r|
        ensures r[i].1 <= r[j].1
      {
        assert r[j] == rest[j - 1];
      }
    }
  }

  /** Inserting adds exactly the one pair and loses none. */
  lemma {:induction false} InsertByValuePermutes(p: (Cell, int), s: seq<(Cell, int)>)
    ensures multiset(InsertByValue(p, s)) == multiset(s) + multiset{p}
  {
    if s != [] && p.1 > s[0].1 {
      InsertByValuePermutes(p, s[1..]);
      assert s == [s[0]] + s[1..];
    }
  }

  /** `sort_values(by="Numeric: q")`: ascending numeric value, the same pairs. */
  function SortByValue(s: seq<(Cell, int)>): (r: seq<(Cell, int)>)
    ensures SortedByValue(r)
    ensures multiset(r) == multiset(s)
  {
    if s == [] then []
    else
      var rest := SortByValue(s[1..]);
      InsertByValueSorted(s[0], rest);
      InsertByValuePermutes(s[0], rest);
      MultisetCons(s);
      InsertByValue(s[0], rest)
  }

  lemma {:induction false} NoDuplicatesCounts<T>(s: seq<T>)
    requires NoDuplicates(s)
    ensures forall x :: multiset(s)[x] <= 1
  {
    if s != [] {
      NoDuplicatesCounts(s[1..]);
      assert s == [s[0]] + s[1..];
      assert s[0] !in s[1..];
    }
  }

  lemma CountsNoDuplicates<T>(s: seq<T>)
    requires forall x :: multiset(s)[x] <= 1
    ensures NoDuplicates(s)
  {
    forall i, j | 0 <= i < j < |s|
      ensures s[i] != s[j]
    {
      RepeatCounted(s, i, j);
    }
  }

  lemma RepeatCounted<T>(s: seq<T>, i: nat, j: nat)
    requires i < j < |s|
    ensures s[i] == s[j] ==> multiset(s)[s[i]] >= 2
  {
    assert s == s[..j] + s[j..];
    assert s[i] in multiset(s[..j]);
    assert s[j] in multiset(s[j..]);
    assert multiset(s) == multiset(s[..j]) + multiset(s[j..]);
  }

  /** The (raw answer, numeric value) pairs of the rows whose raw answer is not empty. */
  function PiePairs(rows: seq<Row>, q: Question): (pairs: seq<(Cell, int)>)
    requires HasNumeric(rows, q)
    ensures |pairs| <= |rows|
    ensures forall p :: p in pairs ==> p.0 != Blank
  {
    if rows == [] then []
    else
      assert rows[0] in rows;
      PieHead(rows[0], q) + PiePairs(rows[1..], q)
  }

  /** What one row adds to the pie: its (raw answer, value) pair unless the answer is empty. */
  function PieHead(x: Row, q: Question): seq<(Cell, int)>
    requires q in x.numeric
  {
    var answer := Answer(x.answers, q);
    if answer != Blank then [(answer, x.numeric[q])] else []
  }

  /** The pairs of two stretches of rows, one after the other. */
  lemma {:induction false} PiePairsAppend(a: seq<Row>, b: seq<Row>, q: Question)
    requires HasNumeric(a, q) && HasNumeric(b, q)
    ensures HasNumeric(a + b, q)
    ensures PiePairs(a + b, q) == PiePairs(a, q) + PiePairs(b, q)
  {
    if a == [] {
      assert a + b == b;
    } else {
      assert a[0] in a;
      PiePairsAppend(a[1..], b, q);
      calc {
        PiePairs(a + b, q);
        { ConsAppend(a, b); }
        PieHead(a[0], q) + PiePairs(a[1..] + b, q);
        PieHead(a[0], q) + PiePairs(a[1..], q) + PiePairs(b, q);
      }
    }
  }

  /** So the slice counts of two stretches of rows add up. */
  lemma PiePairsCountsAppend(a: seq<Row>, b: seq<Row>, q: Question)
    requires HasNumeric(a, q) && HasNumeric(b, q)
    ensures HasNumeric(a + b, q)
    ensures multiset(PiePairs(a + b, q)) == multiset(PiePairs(a, q)) + multiset(PiePairs(b, q))
  {
    PiePairsAppend(a, b, q);
  }

  /** One row gives its one pair when it answered, and nothing when its answer is empty. */
  lemma PiePairsLine(x: Row, q: Question)
    requires q in x.numeric
    ensures Answer(x.answers, q) != Blank ==> PiePairs([x], q) == [(Answer(x.answers, q), x.numeric[q])]
    ensures Answer(x.answers, q) == Blank ==> PiePairs([x], q) == []
  {
    assert [x][1..] == [];
  }

  lemma {:induction false} PiePairsMembers(rows: seq<Row>, q: Question, p: (Cell, int))
    requires HasNumeric(rows, q)
    ensures p in PiePairs(rows, q) <==>
      exists x :: x in rows && Answer(x.answers, q) != Blank && p == (Answer(x.answers, q), x.numeric[q])
  {
    if rows != [] {
      assert rows[0] in rows;
      PiePairsMembers(rows[1..], q, p);
      assert rows == [rows[0]] + rows[1..];
    }
  }

  /** The (raw answer, numeric value) pairs of the rows of `week`. */
  function WeekPairs(rows: seq<Row>, week: Option<Day>, q: Question): seq<(Cell, int)>
    requires HasNumeric(rows, q)
  {
    InWeekMembers(rows, week);
    PiePairs(InWeek(rows, week), q)
  }

  /** One slice per key, counting the key's occurrences among `pairs`. */
  function Slices(pairs: seq<(Cell, int)>, keys: seq<(Cell, int)>): (slices: seq<PieSlice>)
    ensures |slices| == |keys|
    ensures forall i :: 0 <= i < |keys| ==> slices[i] == PieSlice(keys[i].0, keys[i].1, multiset(pairs)[keys[i]])
  {
    seq(|keys|, i requires 0 <= i < |keys| => PieSlice(keys[i].0, keys[i].1, multiset(pairs)[keys[i]]))
  }

  /** The slices of the sorted distinct keys: sorted, distinct, counted, and complete. */
  function SlicesOf(pairs: seq<(Cell, int)>): (slices: seq<PieSlice>)
    ensures forall i, j :: 0 <= i < j < |slices| ==> slices[i].value <= slices[j].value
    ensures forall i, j :: 0 <= i < j < |slices| ==> (slices[i].answer, slices[i].value) != (slices[j].answer, slices[j].value)
    ensures forall i :: 0 <= i < |slices| ==> slices[i].count == multiset(pairs)[(slices[i].answer, slices[i].value)] > 0
    ensures forall p :: p in pairs ==> exists i :: 0 <= i < |slices| && (slices[i].answer, slices[i].value) == p
  {
    var keys := SortByValue(Distinct(pairs));
    var slices := Slices(pairs, keys);
    SliceKeys(pairs);
    assert forall i :: 0 <= i < |slices| ==> (slices[i].answer, slices[i].value) == keys[i];
    assert forall i :: 0 <= i < |slices| ==> slices[i].count == multiset(pairs)[(slices[i].answer, slices[i].value)] > 0 by {
      forall i | 0 <= i < |slices|
        ensures slices[i].count == multiset(pairs)[(slices[i].answer, slices[i].value)] > 0
      {
        assert keys[i] in keys;
      }
    }
    assert forall p :: p in pairs ==> exists i :: 0 <= i < |slices| && (slices[i].answer, slices[i].value) == p by {
      forall p | p in pairs
        ensures exists i :: 0 <= i < |slices| && (slices[i].answer, slices[i].value) == p
      {
        var i :| 0 <= i < |keys| && keys[i] == p;
        assert (slices[i].answer, slices[i].value) == p;
      }
    }
    slices
  }

  /** The slice keys: each pair that occurs, once, in ascending numeric order. */
  lemma SliceKeys(pairs: seq<(Cell, int)>)
    ensures SortedByValue(SortByValue(Distinct(pairs)))
    ensures NoDuplicates(SortByValue(Distinct(pairs)))
    ensures forall p :: p in SortByValue(Distinct(pairs)) <==> p in pairs
  {
    var distinct := Distinct(pairs);
    var keys := SortByValue(distinct);
    NoDuplicatesCounts(distinct);
    CountsNoDuplicates(keys);
    forall p
      ensures p in keys <==> p in pairs
    {
      assert p in keys <==> p in multiset(keys);
      assert p in distinct <==> p in multiset(distinct);
    }
  }

  /**
    `value_counts()` of (raw answer, numeric answer) over the rows of the most
    recent week, sorted by numeric value: one slice per pair that occurs,
    counting its occurrences, in ascending numeric order.
  */
  function PieSnapshot(rows: seq<Row>, week: Option<Day>, q: Question): (slices: seq<PieSlice>)
    requires HasNumeric(rows, q)
    ensures forall i, j :: 0 <= i < j < |slices| ==> slices[i].value <= slices[j].value
    ensures forall i, j :: 0 <= i < j < |slices| ==> (slices[i].answer, slices[i].value) != (slices[j].answer, slices[j].value)
    ensures forall i :: 0 <= i < |slices| ==>
      slices[i].count == multiset(WeekPairs(rows, week, q))[(slices[i].answer, slices[i].value)] > 0
    ensures forall p :: p in WeekPairs(rows, week, q) ==>
      exists i :: 0 <= i < |slices| && (slices[i].answer, slices[i].value) == p
  {
    SlicesOf(WeekPairs(rows, week, q))
  }

  /** A slice exists exactly for the pairs some row of the week gave. */
  lemma PieSnapshotSlices(rows: seq<Row>, week: Option<Day>, q: Question, answer: Cell, v: int)
    requires HasNumeric(rows, q)
    ensures (exists i :: 0 <= i < |PieSnapshot(rows, week, q)| &&
              PieSnapshot(rows, week, q)[i].answer == answer && PieSnapshot(rows, week, q)[i].value == v) <==>
      exists x :: x in rows && Some(x.week) == week && answer != Blank && Answer(x.answers, q) == answer && x.numeric[q] == v
  {
    var slices := PieSnapshot(rows, week, q);
    InWeekMembers(rows, week);
    PiePairsMembers(InWeek(rows, week), q, (answer, v));
    if exists i :: 0 <= i < |slices| && slices[i].answer == answer && slices[i].value == v {
      var i :| 0 <= i < |slices| && slices[i].answer == answer && slices[i].value == v;
      assert (answer, v) in multiset(WeekPairs(rows, week, q));
    }
  }

  // ---------------------------------------------------------------------
  // Picture (src/main.py:167-185, src/utils.py:60-67)

  /** Which picture is fetched; `Random` is the coin flip of `choose_randomly`. */
  datatype Animal = Dog | Cat | Random

  /** The KeyError raised when one of the two answers is missing: the key looked up. */
  datatype PictureError = MissingAnswer(key: string)

  /** The non-empty "Fun question" answers, with multiplicity. */
  function FunAnswers(rows: seq<Row>): multiset<Cell>
  {
    if rows == [] then multiset{}
    else
      var answer := Answer(rows[0].answers, FunQuestion);
      (if answer != Blank then multiset{answer} else multiset{}) + FunAnswers(rows[1..])
  }

  /** How many rows answered `word`. */
  function CountAnswer(rows: seq<Row>, word: string): (n: nat)
    ensures n <= |rows|
  {
    if rows == [] then 0
    else (if Answer(rows[0].answers, FunQuestion) == Text(word) then 1 else 0) + CountAnswer(rows[1..], word)
  }

  /** Whether any row answered at all. */
  predicate AnyAnswered(rows: seq<Row>)
  {
    exists i :: 0 <= i < |rows| && Answer(rows[i].answers, FunQuestion) != Blank
  }

  /**
    The picture rule over the most recent week: no answers gives the coin
    flip; otherwise "Dogs" and then "Cats" are looked up (a missing one raises
    KeyError), and the larger count wins, a tie giving the coin flip.
  */
  function PictureChoice(rows: seq<Row>, week: Option<Day>): (r: Result<Animal, PictureError>)
    ensures r == Ok(Dog) ==> CountAnswer(InWeek(rows, week), "Dogs") > CountAnswer(InWeek(rows, week), "Cats") > 0
    ensures r == Ok(Cat) ==> CountAnswer(InWeek(rows, week), "Cats") > CountAnswer(InWeek(rows, week), "Dogs") > 0
    ensures r.Err? ==> AnyAnswered(InWeek(rows, week))
  {
    var answered := InWeek(rows, week);
    if !AnyAnswered(answered) then Ok(Random)
    else
      var dogs := CountAnswer(answered, "Dogs");
      var cats := CountAnswer(answered, "Cats");
      if dogs == 0 then Err(MissingAnswer("Dogs"))
      else if cats == 0 then Err(MissingAnswer("Cats"))
      else if dogs > cats then Ok(Dog)
      else if dogs < cats then Ok(Cat)
      else Ok(Random)
  }

  lemma {:induction false} CountAnswerIsMultiplicity(rows: seq<Row>, word: string)
    ensures CountAnswer(rows, word) == FunAnswers(rows)[Text(word)]
  {
    if rows != [] {
      CountAnswerIsMultiplicity(rows[1..], word);
    }
  }

  lemma {:induction false} AnyAnsweredIsNonEmpty(rows: seq<Row>)
    ensures AnyAnswered(rows) <==> |FunAnswers(rows)| > 0
  {
    if rows != [] {
      AnyAnsweredIsNonEmpty(rows[1..]);
      if AnyAnswered(rows[1..]) {
        var i :| 0 <= i < |rows[1..]| && Answer(rows[1..][i].answers, FunQuestion) != Blank;
        assert Answer(rows[i + 1].answers, FunQuestion) != Blank;
      }
      if AnyAnswered(rows) && Answer(rows[0].answers, FunQuestion) == Blank {
        var i :| 0 <= i < |rows| && Answer(rows[i].answers, FunQuestion) != Blank;
        assert rows[1..][i - 1] == rows[i];
      }
    }
  }

  /**
    The picture rule stated on the week's answers as a multiset: each outcome
    with the exact condition that produces it.
  */
  lemma PictureRule(rows: seq<Row>, week: Option<Day>)
    ensures var answers := FunAnswers(InWeek(rows, week));
      var dogs := answers[Text("Dogs")];
      var cats := answers[Text("Cats")];
      && (PictureChoice(rows, week) == Ok(Dog) <==> 0 < cats < dogs)
      && (PictureChoice(rows, week) == Ok(Cat) <==> 0 < dogs < cats)
      && (PictureChoice(rows, week) == Ok(Random) <==> |answers| == 0 || 0 < dogs == cats)
      && (PictureChoice(rows, week) == Err(MissingAnswer("Dogs")) <==> |answers| > 0 && dogs == 0)
      && (PictureChoice(rows, week) == Err(MissingAnswer("Cats")) <==> 0 < dogs && cats == 0)
  {
    var answered := InWeek(rows, week);
    CountAnswerIsMultiplicity(answered, "Dogs");
    CountAnswerIsMultiplicity(answered, "Cats");
    AnyAnsweredIsNonEmpty(answered);
    var answers := FunAnswers(answered);
    if Text("Dogs") in answers || Text("Cats") in answers {
      assert |answers| > 0;
    }
  }

  // ---------------------------------------------------------------------
  // Panels (src/main.py:112-201, 208-254)

  /** The top panel, as the data it draws. */
  datatype TopPanel =
    | BarCounts(counts: multiset<(int, string)>)
    | PieChart(slices: seq<PieSlice>)
    | AnimalPicture(choice: Result<Animal, PictureError>)
    | EmptyImage

  /**
    `update_top_graph`: this week's bars, pie or picture by the question's
    list, and the blank image for a question in none of them.
  */
  function TopPanelFor(d: Dashboard, q: Question): (p: TopPanel)
    requires Loaded(d)
    ensures p.EmptyImage? <==> KindOf(q).Unlisted?
    ensures q in BarQuestions ==> p == BarCounts(BarSnapshot(d.rows, d.mostRecentWeek, q))
    ensures q in PieQuestions ==> p == PieChart(PieSnapshot(d.rows, d.mostRecentWeek, q))
    ensures q in PictureQuestions ==> p == AnimalPicture(PictureChoice(d.rows, d.mostRecentWeek))
    ensures p.BarCounts? ==> |p.counts| == |InWeek(d.rows, d.mostRecentWeek)|
  {
    match KindOf(q)
    case BarQuestion =>
      BarSnapshotTotal(d.rows, d.mostRecentWeek, q);
      BarCounts(BarSnapshot(d.rows, d.mostRecentWeek, q))
    case PieQuestion => PieChart(PieSnapshot(d.rows, d.mostRecentWeek, q))
    case PictureQuestion => AnimalPicture(PictureChoice(d.rows, d.mostRecentWeek))
    case _ => EmptyImage
  }

  /** `update_bottom_graph`: the trend for a numeric question, the blank image otherwise. */
  function BottomPanelFor(d: Dashboard, q: Question): (p: TrendPanel)
    requires Loaded(d)
    ensures p.NoTrend? <==> q !in NumericQuestions
    ensures q in BarQuestions ==> p == RoleWeekLine(RoleWeekTrend(d.rows, q))
    ensures q in PieQuestions ==> p == WeekLine(WeekTrend(d.rows, q))
  {
    BottomPanel(KindOf(q), d.rows, q)
  }
}
