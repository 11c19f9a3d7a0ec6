/**
 * The evaluation form of app.py: one scored item per catalog question, the score total, the
 * table rows of the generated document, and the stored evaluation document.
 */
module App {
  import opened Options
  import opened Seqs
  import opened Dicts
  import opened Decimals

  /** `{"descripcion": ..., "calificacion": ..., "observaciones": ...}`. */
  datatype Item = Item(descripcion: string, calificacion: int, observaciones: string)

  /** What the two widgets of one question return: the score and the observation text. */
  datatype Answer = Answer(calificacion: int, observaciones: string)

  /** The `datos` dictionary built when the button is pressed. */
  datatype Datos = Datos(fecha: string, area: string, nombre: string, uni: string, email: string, celular: string)

  /** The stored document; `fecha` is the moment of saving. */
  datatype Document = Document(
    nombre: string,
    area: string,
    fecha: int,
    evaluador: string,
    evaluaciones: seq<Item>,
    conclusion: string)

  /** The evaluation as the form holds it before the button is pressed. */
  datatype Form = Form(evaluador: string, evaluaciones: seq<Item>, suma: int)

  const Unassigned: string := "Evaluador no asignado"

  /** `sum(e['calificacion'] for e in evaluaciones)`. */
  function Total(items: seq<Item>): int
    decreases |items|
  {
    if items == [] then 0 else Total(items[..|items| - 1]) + items[|items| - 1].calificacion
  }

  /** The range `st.number_input(..., 0, 5)` allows. */
  predicate InWidgetRange(answers: seq<Answer>) {
    forall i :: 0 <= i < |answers| ==> 0 <= answers[i].calificacion <= 5
  }

  /** Scores in 0..5 give a total between 0 and five times the number of items. */
  lemma {:induction false} TotalBounds(items: seq<Item>)
    requires forall i :: 0 <= i < |items| ==> 0 <= items[i].calificacion <= 5
    ensures 0 <= Total(items) <= 5 * |items|
    decreases |items|
  {
    if items != [] {
      TotalBounds(items[..|items| - 1]);
    }
  }

  /** The total of a concatenation is the sum of the totals. */
  lemma {:induction false} TotalAppend(a: seq<Item>, b: seq<Item>)
    ensures Total(a + b) == Total(a) + Total(b)
    decreases |b|
  {
    if b != [] {
      assert (a + b)[..|a + b| - 1] == a + b[..|b| - 1];
      assert (a + b)[|a + b| - 1] == b[|b| - 1];
      TotalAppend(a, b[..|b| - 1]);
    } else {
      assert a + b == a;
    }
  }

  /** `EVALUADORES_AREAS.get(area, "Evaluador no asignado")`. */
  function EvaluatorFor(evaluators: Dict<string>, area: string): string {
    if area in evaluators.entries then evaluators.entries[area] else Unassigned
  }

  /**
   * For an evaluator dictionary built row by row, an area gets the evaluator of its last row,
   * and an area without rows gets the placeholder.
   */
  lemma EvaluatorForAssigned(areas: seq<string>, names: seq<string>, area: string)
    requires |areas| == |names|
    ensures area !in areas ==> EvaluatorFor(AssignAll(Empty(), areas, names), area) == Unassigned
    ensures area in areas ==> EvaluatorFor(AssignAll(Empty(), areas, names), area) == names[LastIndex(areas, area)]
  {
    AssignAllLastWins(areas, names, area);
  }

  /**
   * The loop of `main` (app.py:203-213): one item per catalog question of the area, in
   * catalog order, with the answers of that question's widgets, and the running total.
   * An area missing from the catalog raises `KeyError` (None).
   */
  method FillForm(catalog: Dict<seq<string>>, evaluators: Dict<string>, area: string, answers: seq<Answer>)
    returns (form: Option<Form>)
    requires area in catalog.entries ==> |answers| == |catalog.entries[area]|
    ensures form.None? <==> area !in catalog.entries
    ensures form.Some? ==>
              var questions := catalog.entries[area];
              && form.value.evaluador == EvaluatorFor(evaluators, area)
              && |form.value.evaluaciones| == |questions|
              && (forall i :: 0 <= i < |questions| ==>
                    form.value.evaluaciones[i] == Item(questions[i], answers[i].calificacion, answers[i].observaciones))
              && form.value.suma == Total(form.value.evaluaciones)
              && (InWidgetRange(answers) ==> 0 <= form.value.suma <= 5 * |questions|)
  {
    var evaluador := if area in evaluators.entries then evaluators.entries[area] else "Evaluador no asignado";
    if area !in catalog.entries {
      return None;
    }
    var descripciones := catalog.entries[area];
    var evaluaciones: seq<Item> := [];
    var suma := 0;
    var i := 0;
    while i < |descripciones|
      invariant 0 <= i <= |descripciones|
      invariant |evaluaciones| == i
      invariant forall j :: 0 <= j < i ==>
                  evaluaciones[j] == Item(descripciones[j], answers[j].calificacion, answers[j].observaciones)
      invariant suma == Total(evaluaciones)
    {
      var descripcion := descripciones[i];
      var calificacion, observaciones := answers[i].calificacion, answers[i].observaciones;
      var item := Item(descripcion, calificacion, observaciones);
      assert (evaluaciones + [item])[..i] == evaluaciones;
      evaluaciones := evaluaciones + [item];
      suma := suma + calificacion;
      i := i + 1;
    }
    if InWidgetRange(answers) {
      assert forall j :: 0 <= j < |evaluaciones| ==> evaluaciones[j].calificacion == answers[j].calificacion;
      TotalBounds(evaluaciones);
    }
    form := Some(Form(evaluador, evaluaciones, suma));
  }

  // ----- The document's table (app.py:148 and app.py:152) -----

  /** One `<tr>` of the evaluation table. */
  function RenderRow(e: Item): string {
    "<tr><td>" + e.descripcion + "</td><td>" + Decimal(e.calificacion) + "</td><td>" + e.observaciones + "</td></tr>"
  }

  /** `"".join(<row> for e in evaluaciones)`. */
  function RenderRows(items: seq<Item>): string
    decreases |items|
  {
    if items == [] then "" else RenderRow(items[0]) + RenderRows(items[1..])
  }

  const TotalLabel: string := "Total Calificaciones: "

  /** The text of the total line. */
  function RenderTotal(items: seq<Item>): string {
    TotalLabel + Decimal(Total(items))
  }

  /** The rows of a concatenation are the rows of its parts, one after the other. */
  lemma {:induction false} RenderRowsAppend(a: seq<Item>, b: seq<Item>)
    ensures RenderRows(a + b) == RenderRows(a) + RenderRows(b)
    decreases |a|
  {
    if a != [] {
      assert (a + b)[0] == a[0] && (a + b)[1..] == a[1..] + b;
      RenderRowsAppend(a[1..], b);
    } else {
      assert a + b == b;
    }
  }

  /** Reading the table back: a field runs up to the next `<`. */
  function Field(s: string): (r: (string, string))
    ensures r.0 + r.1 == s && '<' !in r.0
    decreases |s|
  {
    if s == [] || s[0] == '<' then ([], s)
    else
      var (t, rest) := Field(s[1..]);
      assert s == [s[0]] + s[1..];
      assert ([s[0]] + t) + rest == [s[0]] + (t + rest);
      ([s[0]] + t, rest)
  }

  /** `s` without the prefix `p`, if it starts with `p`. */
  function After(p: string, s: string): (r: Option<string>)
    ensures r.Some? ==> |r.value| == |s| - |p|
  {
    if p <= s then Some(s[|p|..]) else None
  }

  /** Reads one row off the front of `s`: the item and the text after the row. */
  function ParseRow(s: string): (r: Option<(Item, string)>)
    ensures r.Some? ==> |r.value.1| < |s|
  {
    match After("<tr><td>", s)
    case None => None
    case Some(s1) =>
      var (desc, s2) := Field(s1);
      match After("</td><td>", s2)
      case None => None
      case Some(s3) =>
        var (score, s4) := Field(s3);
        match After("</td><td>", s4)
        case None => None
        case Some(s5) =>
          var (obs, s6) := Field(s5);
          match After("</td></tr>", s6)
          case None => None
          case Some(s7) =>
            match ParseDecimal(score)
            case None => None
            case Some(n) => Some((Item(desc, n, obs), s7))
  }

  /** Reads a sequence of rows; fails unless all of `s` is rows. */
  function ParseRows(s: string): Option<seq<Item>>
    decreases |s|
  {
    if s == [] then Some([])
    else
      match ParseRow(s)
      case None => None
      case Some((e, rest)) =>
        match ParseRows(rest)
        case None => None
        case Some(es) => Some([e] + es)
  }

  /** A field followed by a `<` (or nothing) is read back whole. */
  lemma {:induction false} FieldOf(t: string, rest: string)
    requires '<' !in t
    requires rest == [] || rest[0] == '<'
    ensures Field(t + rest) == (t, rest)
    decreases |t|
  {
    if t != [] {
      assert (t + rest)[0] == t[0] && (t + rest)[1..] == t[1..] + rest;
      assert t[0] in t;
      FieldOf(t[1..], rest);
      assert [t[0]] + t[1..] == t;
    } else {
      assert t + rest == rest;
    }
  }

  /** Texts that cannot be confused with the table's markup. */
  predicate PlainText(e: Item) {
    '<' !in e.descripcion && '<' !in e.observaciones
  }

  lemma AfterPrefix(p: string, x: string)
    ensures After(p, p + x) == Some(x)
  {
    assert (p + x)[..|p|] == p && (p + x)[|p|..] == x;
  }

  /** A rendered row followed by `rest`, grouped from the right, field by field. */
  lemma RowShape(e: Item, rest: string)
    ensures RenderRow(e) + rest
            == "<tr><td>" + (e.descripcion + ("</td><td>" + (Decimal(e.calificacion)
               + ("</td><td>" + (e.observaciones + ("</td></tr>" + rest))))))
  {
    var d := Decimal(e.calificacion);
    var tail3 := "</td></tr>" + rest;
    var tail2 := "</td><td>" + (e.observaciones + tail3);
    var tail1 := "</td><td>" + (d + tail2);
    calc {
      RenderRow(e) + rest;
      ("<tr><td>" + e.descripcion + "</td><td>" + d + "</td><td>" + e.observaciones) + tail3;
      ("<tr><td>" + e.descripcion + "</td><td>" + d) + tail2;
      ("<tr><td>" + e.descripcion) + tail1;
      "<tr><td>" + (e.descripcion + tail1);
    }
  }

  /** One rendered row, followed by anything, is read back as its item. */
  lemma RowRoundTrip(e: Item, rest: string)
    requires PlainText(e)
    ensures ParseRow(RenderRow(e) + rest) == Some((e, rest))
  {
    var d := Decimal(e.calificacion);
    var tail3 := "</td></tr>" + rest;
    var tail2 := "</td><td>" + (e.observaciones + tail3);
    var tail1 := "</td><td>" + (d + tail2);
    RowShape(e, rest);
    AfterPrefix("<tr><td>", e.descripcion + tail1);
    FieldOf(e.descripcion, tail1);
    AfterPrefix("</td><td>", d + tail2);
    FieldOf(d, tail2);
    AfterPrefix("</td><td>", e.observaciones + tail3);
    FieldOf(e.observaciones, tail3);
    AfterPrefix("</td></tr>", rest);
    DecimalRoundTrip(e.calificacion);
  }

  /**
   * The table holds one row per item, in list order: reading the rendered rows back gives
   * the item list itself.
   */
  lemma {:induction false} RowsRoundTrip(items: seq<Item>)
    requires forall i :: 0 <= i < |items| ==> PlainText(items[i])
    ensures ParseRows(RenderRows(items)) == Some(items)
    decreases |items|
  {
    if items != [] {
      var rest := RenderRows(items[1..]);
      RowsRoundTrip(items[1..]);
      RowRoundTrip(items[0], rest);
      assert RenderRows(items) == RenderRow(items[0]) + rest;
      assert RenderRows(items)[0] == '<';
      assert [items[0]] + items[1..] == items;
    }
  }

  /** The total line reads back as the sum of the scores. */
  lemma TotalReadsBack(items: seq<Item>)
    ensures TotalLabel <= RenderTotal(items)
    ensures ParseDecimal(RenderTotal(items)[|TotalLabel|..]) == Some(Total(items))
  {
    assert RenderTotal(items)[|TotalLabel|..] == Decimal(Total(items));
    DecimalRoundTrip(Total(items));
  }

  // ----- Storage (guardar_evaluacion, app.py:19-31) -----

  /** The stored documents of one participant in one area, oldest first. */
  function DocumentsFor(documents: seq<Document>, nombre: string, area: string): seq<Document> {
    Filter((d: Document) => d.nombre == nombre && d.area == area, documents)
  }

  /**
   * Saving one document adds exactly that document to its participant and area's history and
   * leaves every other history as it was.
   */
  lemma SaveExtendsHistory(documents: seq<Document>, doc: Document, nombre: string, area: string)
    ensures DocumentsFor(documents + [doc], nombre, area) ==
              DocumentsFor(documents, nombre, area) + (if doc.nombre == nombre && doc.area == area then [doc] else [])
  {
    FilterAppend((d: Document) => d.nombre == nombre && d.area == area, documents, [doc]);
    assert [doc][1..] == [];
  }

  /** The document collection: documents are only ever added. */
  class EvaluationStore {
    var documents: seq<Document>

    constructor ()
      ensures documents == []
    {
      documents := [];
    }

    /**
     * `guardar_evaluacion`: one new document holding the participant's name and area from
     * `datos`, the time of saving, and the evaluator, items and conclusion as given.
     */
    method Save(datos: Datos, evaluaciones: seq<Item>, conclusion: string, evaluador: string, now: int)
      modifies this
      ensures documents == old(documents) + [Document(datos.nombre, datos.area, now, evaluador, evaluaciones, conclusion)]
    {
      var doc := Document(datos.nombre, datos.area, now, evaluador, evaluaciones, conclusion);
      documents := documents + [doc];
    }
  }
}
