/**
 * The question and evaluator catalogs of config.py: a table of CSV rows becomes a dictionary
 * keyed by area, built from the rows of one year.
 */
module Config {
  import opened Options
  import opened Seqs
  import opened Dicts

  /** One CSV row: its `Year`, its `Area`, and the file's remaining column(s) as `payload`. */
  datatype Row<P> = Row(year: int, area: string, payload: P)

  /** The remaining columns of a row of `preguntas_areas.csv`. */
  datatype Question = Question(number: int, text: string)

  /** A row of `preguntas_areas.csv` (`Year, Area, Numero_Pregunta, Pregunta`). */
  type QuestionRow = Row<Question>

  /** A row of `evaluadores_areas.csv` (`Year, Area, Evaluador`). */
  type EvaluatorRow = Row<string>

  /**
   * A CSV file as pandas reads it, or `Unreadable` for any exception raised while loading:
   * a missing file, a malformed file, a missing column, a column that cannot be sorted.
   */
  datatype Table<R> = Rows(rows: seq<R>) | Unreadable

  // ----- Year selection (config.py:30-37 and config.py:75-82) -----

  predicate HasYear<P(!new)>(rows: seq<Row<P>>, y: int) {
    exists i :: 0 <= i < |rows| && rows[i].year == y
  }

  /** `df['Year'].max()` of a non-empty table. */
  function MaxYear<P(!new)>(rows: seq<Row<P>>): (m: int)
    requires rows != []
    ensures HasYear(rows, m)
    ensures forall i :: 0 <= i < |rows| ==> rows[i].year <= m
  {
    if |rows| == 1 then rows[0].year
    else
      var m' := MaxYear(rows[1..]);
      assert forall i :: 1 <= i < |rows| ==> rows[i] == rows[1..][i - 1];
      if rows[0].year >= m' then rows[0].year else m'
  }

  /**
   * The year whose rows are used: the requested year when some row has it, otherwise the
   * greatest year in the table. (An empty table has no maximum; no row is selected then.)
   */
  function SelectedYear<P(!new)>(rows: seq<Row<P>>, requested: int): int {
    if HasYear(rows, requested) || rows == [] then requested else MaxYear(rows)
  }

  /** `df[df['Year'] == y]`. */
  function WithYear<P(!new)>(rows: seq<Row<P>>, y: int): seq<Row<P>> {
    Filter((r: Row<P>) => r.year == y, rows)
  }

  /** `df_year` after the fallback. */
  function SelectRows<P(!new)>(rows: seq<Row<P>>, requested: int): seq<Row<P>> {
    WithYear(rows, SelectedYear(rows, requested))
  }

  /**
   * If some row has the requested year, exactly the rows of that year are used, as often as
   * they occur; otherwise exactly the rows whose year is the greatest in the table.
   */
  lemma SelectionRule<P(!new)>(rows: seq<Row<P>>, requested: int, x: Row<P>)
    ensures HasYear(rows, requested) ==>
              multiset(SelectRows(rows, requested))[x] ==
              if x.year == requested then multiset(rows)[x] else 0
    ensures !HasYear(rows, requested) ==>
              multiset(SelectRows(rows, requested))[x] ==
              if forall i :: 0 <= i < |rows| ==> rows[i].year <= x.year then multiset(rows)[x] else 0
  {
    FilterCount((r: Row<P>) => r.year == SelectedYear(rows, requested), rows, x);
    if !HasYear(rows, requested) && rows != [] {
      var m := MaxYear(rows);
      if x in rows {
        var k :| 0 <= k < |rows| && rows[k] == x;
        var j :| 0 <= j < |rows| && rows[j].year == m;
        assert (forall i :: 0 <= i < |rows| ==> rows[i].year <= x.year) <==> x.year == m by {
          assert rows[j].year <= rows[k].year ==> x.year == m;
        }
      } else {
        assert multiset(rows)[x] == 0;
      }
    }
  }

  // ----- Grouping and ordering of questions (config.py:39-43) -----

  /** `df_year['Area']`. */
  function AreasOf<P(!new)>(rows: seq<Row<P>>): (areas: seq<string>)
    ensures |areas| == |rows| && forall i :: 0 <= i < |rows| ==> areas[i] == rows[i].area
  {
    seq(|rows|, i requires 0 <= i < |rows| => rows[i].area)
  }

  /** `df_year[df_year['Area'] == area]`. */
  function RowsOfArea<P(!new)>(rows: seq<Row<P>>, area: string): seq<Row<P>> {
    Filter((r: Row<P>) => r.area == area, rows)
  }

  ghost predicate SortedByNumber(rows: seq<QuestionRow>) {
    forall i, j :: 0 <= i < j < |rows| ==> rows[i].payload.number <= rows[j].payload.number
  }

  /** A row no greater than every row of a sorted sequence can go in front of it. */
  lemma SortedCons(x: QuestionRow, rows: seq<QuestionRow>)
    requires SortedByNumber(rows)
    requires forall k :: 0 <= k < |rows| ==> x.payload.number <= rows[k].payload.number
    ensures SortedByNumber([x] + rows)
  {
    var s := [x] + rows;
    forall i, j | 0 <= i < j < |s| ensures s[i].payload.number <= s[j].payload.number {
      assert s[j] == rows[j - 1];
      if i > 0 {
        assert s[i] == rows[i - 1];
      }
    }
  }

  /** A lower bound on the numbers of some rows holds for any rearrangement of them. */
  lemma LowerBoundKept(b: int, rows: seq<QuestionRow>, moved: seq<QuestionRow>)
    requires forall k :: 0 <= k < |rows| ==> b <= rows[k].payload.number
    requires multiset(moved) == multiset(rows)
    ensures forall k :: 0 <= k < |moved| ==> b <= moved[k].payload.number
  {
    forall k | 0 <= k < |moved| ensures b <= moved[k].payload.number {
      assert moved[k] in multiset(rows);
      var m :| 0 <= m < |rows| && rows[m] == moved[k];
    }
  }

  /** Puts `r` into the sorted `rows` before the first row with a number at least its own. */
  function InsertByNumber(r: QuestionRow, rows: seq<QuestionRow>): (s: seq<QuestionRow>)
    requires SortedByNumber(rows)
    ensures SortedByNumber(s)
    ensures multiset(s) == multiset(rows) + multiset{r}
  {
    if rows == [] || r.payload.number <= rows[0].payload.number then
      SortedCons(r, rows);
      [r] + rows
    else
      var rest := InsertByNumber(r, rows[1..]);
      assert rows == [rows[0]] + rows[1..];
      LowerBoundKept(rows[0].payload.number, rows[1..] + [r], rest);
      SortedCons(rows[0], rest);
      [rows[0]] + rest
  }

  /**
   * `.sort_values('Numero_Pregunta')`: the rows ordered by non-decreasing question number.
   * Rows with equal numbers may come out in any order, as pandas' default sort is not stable.
   */
  function SortByNumber(rows: seq<QuestionRow>): (s: seq<QuestionRow>)
    ensures SortedByNumber(s)
    ensures multiset(s) == multiset(rows)
  {
    if rows == [] then []
    else
      assert rows == [rows[0]] + rows[1..];
      InsertByNumber(rows[0], SortByNumber(rows[1..]))
  }

  /** `['Pregunta'].tolist()`. */
  function Texts(rows: seq<QuestionRow>): (texts: seq<string>)
    ensures |texts| == |rows|
  {
    if rows == [] then [] else [rows[0].payload.text] + Texts(rows[1..])
  }

  lemma {:induction false} TextsOfInsert(r: QuestionRow, rows: seq<QuestionRow>)
    requires SortedByNumber(rows)
    ensures multiset(Texts(InsertByNumber(r, rows))) == multiset(Texts(rows)) + multiset{r.payload.text}
  {
    if rows == [] || r.payload.number <= rows[0].payload.number {
      var s := [r] + rows;
      assert s[0] == r && s[1..] == rows;
      assert InsertByNumber(r, rows) == s;
      assert Texts(s) == [r.payload.text] + Texts(rows);
    } else {
      var rest := InsertByNumber(r, rows[1..]);
      TextsOfInsert(r, rows[1..]);
      var s := [rows[0]] + rest;
      assert s[0] == rows[0] && s[1..] == rest;
      assert InsertByNumber(r, rows) == s;
      assert Texts(s) == [rows[0].payload.text] + Texts(rest);
      assert Texts(rows) == [rows[0].payload.text] + Texts(rows[1..]);
    }
  }

  /** Sorting the rows reorders their texts: each text stays, as often as it occurred. */
  lemma {:induction false} TextsOfSort(rows: seq<QuestionRow>)
    ensures multiset(Texts(SortByNumber(rows))) == multiset(Texts(rows))
  {
    if rows != [] {
      TextsOfSort(rows[1..]);
      TextsOfInsert(rows[0], SortByNumber(rows[1..]));
      assert Texts(rows) == [rows[0].payload.text] + Texts(rows[1..]);
    }
  }

  /**
   * One question list of an area: the `Pregunta` of each selected row of that area, once per
   * row, in non-decreasing order of `Numero_Pregunta`. The insertion sort keeps rows with equal
   * numbers in input order; `QuestionListOf` is the property the loader promises.
   */
  function AreaQuestions(selected: seq<QuestionRow>, area: string): seq<string> {
    Texts(SortByNumber(RowsOfArea(selected, area)))
  }

  /**
   * An area's question list has one entry per selected row of that area and holds exactly
   * those rows' texts, each as many times as it occurs among them.
   */
  lemma AreaQuestionsCount(selected: seq<QuestionRow>, area: string)
    ensures |AreaQuestions(selected, area)| == |RowsOfArea(selected, area)|
    ensures multiset(AreaQuestions(selected, area)) == multiset(Texts(RowsOfArea(selected, area)))
  {
    TextsOfSort(RowsOfArea(selected, area));
    assert |multiset(SortByNumber(RowsOfArea(selected, area)))| == |RowsOfArea(selected, area)|;
  }

  /**
   * `questions` is a valid question list for `area`: the texts of some ordering of the area's
   * selected rows by non-decreasing `Numero_Pregunta`. Rows with equal numbers may come in any
   * order, as pandas' default sort does not promise one.
   */
  ghost predicate QuestionListOf(selected: seq<QuestionRow>, area: string, questions: seq<string>) {
    exists sorted :: SortedByNumber(sorted)
                     && multiset(sorted) == multiset(RowsOfArea(selected, area))
                     && questions == Texts(sorted)
  }

  /** The model's own question list is a valid question list. */
  lemma AreaQuestionsListed(selected: seq<QuestionRow>, area: string)
    ensures QuestionListOf(selected, area, AreaQuestions(selected, area))
  {
    var sorted := SortByNumber(RowsOfArea(selected, area));
    assert SortedByNumber(sorted) && multiset(sorted) == multiset(RowsOfArea(selected, area));
  }

  /** Every entry of a question catalog is a valid question list of its area. */
  ghost predicate ListsQuestions(selected: seq<QuestionRow>, entries: map<string, seq<string>>) {
    forall a :: a in entries ==> QuestionListOf(selected, a, entries[a])
  }

  /** A catalog built from the model's own question lists lists every area validly. */
  lemma CatalogListed(selected: seq<QuestionRow>, entries: map<string, seq<string>>)
    requires forall a :: a in entries ==> entries[a] == AreaQuestions(selected, a)
    ensures ListsQuestions(selected, entries)
  {
    forall a | a in entries
      ensures QuestionListOf(selected, a, entries[a])
    {
      AreaQuestionsListed(selected, a);
    }
  }

  // ----- The two loaders -----

  /**
   * The grouping step of `cargar_preguntas_desde_csv`: for each of the given areas, in order,
   * the area's questions among the selected rows, sorted by `Numero_Pregunta`.
   */
  method GroupQuestions(selected: seq<QuestionRow>, areas: seq<string>) returns (catalog: Dict<seq<string>>)
    requires NoDuplicates(areas)
    ensures catalog.Valid()
    ensures catalog.order == areas
    ensures ListsQuestions(selected, catalog.entries)
  {
    catalog := Empty();
    var i := 0;
    while i < |areas|
      invariant 0 <= i <= |areas|
      invariant catalog.Valid()
      invariant catalog.order == areas[..i]
      invariant forall a :: a in catalog.entries ==> catalog.entries[a] == AreaQuestions(selected, a)
    {
      var area := areas[i];
      NotInPrefix(areas, i);
      SetNew(catalog, area, AreaQuestions(selected, area));
      catalog := catalog.Set(area, AreaQuestions(selected, area));
      assert areas[..i + 1] == areas[..i] + [area];
      i := i + 1;
    }
    assert areas[..i] == areas;
    CatalogListed(selected, catalog.entries);
  }

  /**
   * `cargar_preguntas_desde_csv(year)`: the catalog of questions of the selected year, one
   * entry per area in order of first appearance, each listing its questions in question-number
   * order. `year` None stands for the current year; any failure gives `{}`.
   */
  method LoadQuestions(table: Table<QuestionRow>, year: Option<int>, currentYear: int)
    returns (catalog: Dict<seq<string>>)
    ensures catalog.Valid()
    ensures table.Unreadable? ==> catalog == Empty()
    ensures table.Rows? ==>
              var selected := SelectRows(table.rows, year.GetOr(currentYear));
              && catalog.order == Distinct(AreasOf(selected))
              && ListsQuestions(selected, catalog.entries)
  {
    if table.Unreadable? {
      return Empty();
    }
    var requested := if year.Some? then year.value else currentYear;
    var selected := SelectRows(table.rows, requested);
    catalog := GroupQuestions(selected, Distinct(AreasOf(selected)));
  }

  /** `row['Evaluador']` of each row, in order. */
  function Evaluators(rows: seq<EvaluatorRow>): (names: seq<string>)
    ensures |names| == |rows| && forall i :: 0 <= i < |rows| ==> names[i] == rows[i].payload
  {
    seq(|rows|, i requires 0 <= i < |rows| => rows[i].payload)
  }

  /**
   * The assignment loop of `cargar_evaluadores_desde_csv`: `d[row['Area']] = row['Evaluador']`
   * for each selected row in turn, so each area holds the evaluator of its last row.
   */
  method AssignEvaluators(selected: seq<EvaluatorRow>) returns (evaluators: Dict<string>)
    ensures evaluators.Valid()
    ensures evaluators.order == Distinct(AreasOf(selected))
    ensures forall a :: a in evaluators.entries ==>
              a in AreasOf(selected) &&
              evaluators.entries[a] == selected[LastIndex(AreasOf(selected), a)].payload
  {
    var areas, names := AreasOf(selected), Evaluators(selected);
    evaluators := Empty();
    var i := 0;
    while i < |selected|
      invariant 0 <= i <= |selected|
      invariant evaluators == AssignAll(Empty(), areas[..i], names[..i])
    {
      evaluators := evaluators.Set(selected[i].area, selected[i].payload);
      assert areas[..i + 1][..i] == areas[..i] && names[..i + 1][..i] == names[..i];
      i := i + 1;
    }
    assert areas[..i] == areas && names[..i] == names;
    AssignAllOrder(areas, names);
    forall a | a in evaluators.entries
      ensures a in areas && evaluators.entries[a] == selected[LastIndex(areas, a)].payload
    {
      AssignAllLastWins(areas, names, a);
    }
  }

  /**
   * `cargar_evaluadores_desde_csv(year)`: each area of the selected year's rows, in order of
   * first appearance, mapped to the evaluator of the LAST such row. `year` None stands for the
   * current year; any failure gives `{}`.
   */
  method LoadEvaluators(table: Table<EvaluatorRow>, year: Option<int>, currentYear: int)
    returns (evaluators: Dict<string>)
    ensures evaluators.Valid()
    ensures table.Unreadable? ==> evaluators == Empty()
    ensures table.Rows? ==>
              var selected := SelectRows(table.rows, year.GetOr(currentYear));
              && evaluators.order == Distinct(AreasOf(selected))
              && forall a :: a in evaluators.entries ==>
                   a in AreasOf(selected) &&
                   evaluators.entries[a] == selected[LastIndex(AreasOf(selected), a)].payload
  {
    if table.Unreadable? {
      return Empty();
    }
    var requested := if year.Some? then year.value else currentYear;
    evaluators := AssignEvaluators(SelectRows(table.rows, requested));
  }

  // ----- DESCRIPCIONES_AREAS_EN (config.py:107-216) -----

  /** The fixed English question catalog. */
  const EnglishDescriptions: Dict<seq<string>> := Dict(
    ["Video & Análisis", "Coaching", "Fisio", "Logística & Utilería", "Match Official",
     "Médico", "Preparación Física", "Team Manager", "Nutrición"],
    map[
      "Video & Análisis" := [
        "Creativity / Proactivity.",
        "Decision making / Problem solving.",
        "Punctuality and commitment.",
        "Communication skills.",
        "Teamwork, with peers, other staff.",
        "Visual communication.",
        "Data and statistics.",
        "Knowledge of the game.",
        "Able to solve technology outside of video analysis.",
        "Video capture - Real Time coding."],
      "Coaching" := [
        "Exercise explanation, dynamics, time utilization.",
        "Exercise objective(s).",
        "Correction and transmission.",
        "Feedback.",
        "Decision making - problem solving.",
        "Receptivity.",
        "Relationship with other coaches, other staff and players.",
        "Team analysis capacity.",
        "Analysis capacity during the match.",
        "Analysis capacity after the match."],
      "Fisio" := [
        "Creativity / Proactivity.",
        "Decision making / Problem solving.",
        "Punctuality and commitment.",
        "Communication skills with Players, Staff, Extras.",
        "Teamwork, with peers, other staff.",
        "Organization and Planning.",
        "Management of physio room, gym and field.",
        "Interpretation of planning.",
        "Management of technological tools, GPS, evaluations.",
        "Knowledge of the game."],
      "Logística & Utilería" := [
        "Teamwork.",
        "Planning.",
        "Order.",
        "Creativity.",
        "Punctuality.",
        "Decision making - problem solving.",
        "Knowledge of the game.",
        "Predisposition / Energy.",
        "Ability to work and learn.",
        "Proactive."],
      "Match Official" := [
        "Commitment / Punctuality.",
        "Personal training objective(s).",
        "Demonstration of tools for game management.",
        "Feedback.",
        "Decision making - problem solving.",
        "Receptivity.",
        "Relationship with other coaches, other staff and players.",
        "Team analysis capacity.",
        "Analysis capacity during the match.",
        "Analysis capacity after the match."],
      "Médico" := [
        "Creativity / Proactivity.",
        "Decision making / Problem solving.",
        "Punctuality / Commitment.",
        "Communication skills with Players / Staff, etc.",
        "Teamwork with peers, other staff.",
        "Organization and Planning.",
        "Management of physio room, gym and field.",
        "Interpretation of planning.",
        "Management of technological tools, GPS, evaluations and HIA video review.",
        "Knowledge of the game."],
      "Preparación Física" := [
        "Commitment / Punctuality.",
        "Level of training and previous experience.",
        "Planning / Setting objectives.",
        "Teamwork, with peers, other staff.",
        "Communication skills with players, staff, extras.",
        "Creativity / Proactivity.",
        "Decision making / Problem solving.",
        "Leadership of activities.",
        "Control and organization of activities and work times.",
        "Interpretation, analysis and use of data."],
      "Team Manager" := [
        "Commitment / Punctuality.",
        "Previous experience.",
        "Planning / Setting objectives.",
        "Field work.",
        "Communication skills (players, staff, extras).",
        "Creativity / Proactivity.",
        "Decision making / Problem solving.",
        "Leadership of activities.",
        "Teamwork, with peers, other staff.",
        "Control and organization of activities."],
      "Nutrición" := [
        "Creativity / Proactivity",
        "Decision making / Problem solving",
        "Time management and commitment",
        "Communication skills with Players, Staff, Extras",
        "Teamwork, with peers, other staff",
        "Level of training in Sports Nutrition",
        "Management of ISAK 2 protocol for measurement",
        "Anthropometric interpretation",
        "Management of technological, computer, etc. tools.",
        "Knowledge of the game and physical preparation"]
    ])

  /** The English catalog is a well-formed dictionary of nine distinct areas. */
  lemma EnglishDescriptionsAreas()
    ensures EnglishDescriptions.Valid()
    ensures |EnglishDescriptions.order| == 9
  {
    var areas := EnglishDescriptions.order;
    // The nine area names all have different lengths.
    assert forall i :: 0 <= i < |areas| ==> |areas[i]| == [16, 8, 5, 20, 14, 6, 18, 12, 9][i];
  }

  /** Every area of the English catalog has ten questions. */
  lemma EnglishDescriptionsQuestions()
    ensures forall a :: a in EnglishDescriptions.entries ==> |EnglishDescriptions.entries[a]| == 10
  {
  }
}
