# Evaluation catalog, session prefill and evaluation record — a Dafny model

This project models the data-handling core of a small Streamlit application that collects
performance evaluations for participants of an athletic program (areas such as Coaching,
Fisio or Médico), renders them as a PDF and stores them in MongoDB. What is modelled:

- **The catalogs** (`config.py`). `cargar_preguntas_desde_csv` and
  `cargar_evaluadores_desde_csv` turn a table of CSV rows into dictionaries keyed by area.
  Both keep the rows of the requested year, or of the greatest year present when no row has
  that year. The question catalog groups the rows by area, in order of first appearance,
  and orders each area's questions by `Numero_Pregunta`. The evaluator catalog assigns row by
  row, so the last row of an area wins. Any failure gives `{}`. The fixed English table
  `DESCRIPCIONES_AREAS_EN` is included as a constant.
- **The session-state prefill** (`test_session_state.py`). A saved evaluation is copied into
  Streamlit's `session_state` under a per-participant guard key. Its answers go to the
  widget keys `cal_<question>` and `obs_<question>` and its conclusion to
  `conclusion_guardada`. The script then prints the state, shortening long values.
- **The evaluation form and record** (`app.py`). `main` builds one item per catalog question
  and a running total. `generar_pdf_con_html` renders one table row per item and the total.
  `guardar_evaluacion` inserts one document.

Modules:

| file | module | models |
|---|---|---|
| `options.dfy` | `Options` | optional values (`dict.get` with a default, `year=None`) |
| `seqs.dfy` | `Seqs` | `unique()` in order of first appearance, first/last index, filtering |
| `dicts.dfy` | `Dicts` | a Python `dict` with string keys: a map plus its key insertion order |
| `decimals.dfy` | `Decimals` | `str()` of an integer, and a parse that reads it back |
| `config.dfy` | `Config` | the two loaders and the English catalog |
| `session.dfy` | `Session` | the guarded prefill and the display loop |
| `app.dfy` | `App` | item assembly, total, table rows, stored document |
| `reload.dfy` | `Reload` | a stored document read back through the prefill |

Conventions. A CSV file is `Table.Rows(rows)`, a sequence of records, or `Table.Unreadable`
for every exception pandas can raise while loading it. The clock (`datetime.now()`) is a
parameter. Widget results are given sequences, one `Answer` per catalog question. The
session state is a class with a `Dict` field that `Prefill` reassigns, as the script mutates
the dictionary in place. The document collection is an append-only sequence of documents.

`main` always builds an item for every catalog question (app.py:207-210), and
`guardar_evaluacion` only inserts (app.py:30). Scores are never rejected and dropped: the
widget only lets 0..5 through.

## Model

| member | source | states |
|---|---|---|
| `Seqs.Distinct` | config.py:41 | the areas list has no duplicates and holds exactly the areas present |
| `Seqs.DistinctFirstAppearance` | config.py:41 | the distinct areas are listed in the order of their first occurrence in the rows |
| `Seqs.FilterCount` | config.py:31 | a row filter keeps every matching row exactly as often as it occurs, and no other row |
| `Config.MaxYear` | config.py:35 | the fallback year is a year of some row, and no row has a greater year |
| `Config.SelectionRule` | config.py:31-37 | if some row has the requested year, exactly the rows of that year are used; otherwise exactly the rows whose year is the greatest in the table |
| `Config.SortByNumber` | config.py:42 | an area's rows come out ordered by non-decreasing `Numero_Pregunta` and are a permutation of the rows that went in |
| `Config.TextsOfSort` | config.py:42 | the question texts after sorting are the texts of the area's rows, each as often as it occurs |
| `Config.AreaQuestionsCount` | config.py:42-43 | an area's question list has one entry per selected row of that area and holds exactly those rows' texts |
| `Config.GroupQuestions` | config.py:40-43 | for each given area, in order and once, the entry is the texts of some ordering of that area's rows by non-decreasing `Numero_Pregunta` |
| `Config.LoadQuestions` | config.py:7-49 | no year means the current year; unreadable input gives `{}`; the keys are the distinct areas of the selected rows in order of first appearance, each mapped to the texts of some ordering of that area's rows by non-decreasing `Numero_Pregunta` (ties in any order) |
| `Config.AssignEvaluators` | config.py:85-87 | assigning the rows in turn leaves the distinct areas in order of first appearance, each with the `Evaluador` of its last row |
| `Config.LoadEvaluators` | config.py:52-93 | no year means the current year; unreadable input gives `{}`; the keys are the distinct selected areas in order of first appearance, each mapped to the `Evaluador` of the last selected row of that area |
| `Dicts.AssignAllOrder` | config.py:85-87 | assigning keys one by one into `{}` keeps each key once, in order of first assignment |
| `Dicts.AssignAllLastWins` | config.py:85-87 | after assigning keys one by one, a key is present exactly when it was assigned, and it holds the value of its last assignment |
| `Config.EnglishDescriptionsAreas` | config.py:107-216 | the English catalog is a dictionary of nine distinct areas |
| `Config.EnglishDescriptionsQuestions` | config.py:107-216 | every area of the English catalog has ten questions |
| `Session.SessionState.Prefill` | test_session_state.py:29-37 | the in-place update leaves the state that the guarded block defines |
| `Session.PrefillGuarded` | test_session_state.py:29 | when `loaded_<nombre>_<area>` is present the state is unchanged |
| `Session.PrefillWrites` | test_session_state.py:29-37 | a run sets the flag to `True` and `conclusion_guardada` to the saved conclusion or `''`; the keys afterwards are the old ones plus the flag, the conclusion key and the items' `cal_`/`obs_` keys; no other key changes value |
| `Session.PrefillItem` | test_session_state.py:32-35 | each saved item not repeated later leaves its score text under `cal_<desc>` and its observation under `obs_<desc>`, with `''` for missing fields |
| `Session.WriteItemsLastWins` | test_session_state.py:32-35 | when two items share a description, the later item's values are the ones left |
| `Session.WriteItemsFrame` | test_session_state.py:32-35 | the item loop adds exactly the items' keys, changes no other key, and keeps the existing key order |
| `Session.KeyKindsDiffer` | test_session_state.py:30-37 | flag, `cal_`, `obs_` and conclusion keys can never collide with one another |
| `Session.PrefillWithoutItems` | test_session_state.py:29-37 | with no guard and no `evaluaciones` list, the keys afterwards are the old ones plus the flag and the conclusion key, and every other value stays |
| `Session.PrefillIdempotent` | test_session_state.py:29-30 | running the prefill twice gives the same state as running it once |
| `Session.PrefillKeepsOrder` | test_session_state.py:29-37 | the existing keys keep their iteration order and the new keys follow them |
| `Session.Display` | test_session_state.py:41-45 | one line per key in the state's iteration order, showing the key and its value shortened |
| `Decimals.DecimalRoundTrip` | test_session_state.py:34 | the text written for a score reads back as that score |
| `Reload.ReloadRestoresAnswers` | test_session_state.py:32-37 | prefilling from a stored document leaves under the keys named like each question's widget keys its score (as a string that parses back to the score) and its observation, and the conclusion under `conclusion_guardada` |
| `App.FillForm` | app.py:196-213 | one item per catalog question of the area, in catalog order, carrying that question and its answers; the total is the sum of the items' scores and lies in 0..5 × the number of questions when the widgets keep to 0..5; an area missing from the catalog is an error; the evaluator is the catalog's or the placeholder |
| `App.TotalBounds` | app.py:208-211 | scores in 0..5 give a total between 0 and 5 × the number of items |
| `App.TotalAppend` | app.py:211 | the total of two item lists one after the other is the sum of their totals |
| `App.EvaluatorForAssigned` | app.py:196 | an area with evaluator rows gets the evaluator of its last row; an area without rows gets `"Evaluador no asignado"` |
| `App.RowRoundTrip` | app.py:148 | one rendered row whose description and observation contain no `<` reads back as its item, whatever follows it |
| `App.RowsRoundTrip` | app.py:148 | when no description or observation contains `<`, the rendered table holds one row per item in list order: reading it back gives the item list |
| `App.RenderRowsAppend` | app.py:148 | the rows of two item lists one after the other are the rows of each, in that order |
| `App.TotalReadsBack` | app.py:152 | the total line reads back as the sum of the scores |
| `App.EvaluationStore.Save` | app.py:19-30 | exactly one document is appended, with `nombre` and `area` from `datos`, the saving time, and evaluator, items and conclusion as given; earlier documents are untouched |
| `App.SaveExtendsHistory` | app.py:30 | a save adds the new document to its participant and area's history and leaves every other history as it was |

## Left out

- Reading the CSV files, path resolution and pandas' own machinery (config.py:24-28, config.py:69-73): the rows are given. Every exception the loaders catch is the single case `Table.Unreadable`.
- An empty table: pandas' maximum of an empty column is NaN and selects no row. The model selects no row too, and the result is `{}`.
- The relative order of questions with equal `Numero_Pregunta`: pandas' default sort is not stable. `Config.SortByNumber` promises only sortedness and permutation, and `Config.LoadQuestions` promises only some such ordering (`Config.QuestionListOf`). The insertion sort in the model's body happens to keep ties in input order; no contract exposes that.
- `Config.SortByNumber`: column values that cannot be compared are not modelled (they raise, which is `Table.Unreadable`). Numbers are unbounded integers.
- The module-level constants `DESCRIPCIONES_AREAS` and `EVALUADORES_AREAS` (config.py:99, config.py:105) are just the loaders called with no year. They are not separate members.
- `print` logging (config.py:36, config.py:47, config.py:81, config.py:91, app.py:31, app.py:177). The display loop of test_session_state.py is modelled as the list of printed lines. The heading printed before the loop (test_session_state.py:40) and the fixed lines printed afterwards (test_session_state.py:48-53) are not modelled.
- `datetime.now()` is a parameter (`currentYear`, `now`). Date formatting with `strptime`/`strftime` and the OS locale (app.py:12, app.py:35, app.py:219) is not modelled: it depends on the platform library.
- MongoDB connection setup (app.py:15-17) and the failure behaviour of `insert_one`: the collection is an append-only sequence that always accepts the document.
- The PDF: the HTML head, CSS, header image, participant block and pdfkit options (app.py:37-176) are presentation handled by a foreign library. Only the table rows and the total line are modelled.
- Streamlit widgets, sidebar, participant table and download button (app.py:180-202, app.py:213-233): widget values are given inputs. Widget keys that repeat when two questions share a text (Streamlit raises then) are not modelled.
- `App.FillForm`: the 0..5 bound on scores is a guarantee of `st.number_input`, so the total bound is stated under that assumption rather than required.
- `Session.PrefillItem`: for a description that later items repeat, the values left are the later item's (`Session.WriteItemsLastWins`). A saved `calificacion` that is not an integer is not modelled.
- Python's `str()` is modelled for integers and for the values the session state holds: the flag `True` and strings (test_session_state.py:30, :34-35, :37). The score is turned into a string before it is stored.
- HTML escaping in the PDF table: app.py:148 inserts `descripcion` and `observaciones` into the markup as they are, so a text containing markup (an observation such as `a</td><td>b`) changes the table's cells. `App.RowRoundTrip` and `App.RowsRoundTrip` are stated only for texts without `<`.
- The value stored under `cal_<question>` is a string, while the widget at app.py:208 is an integer `number_input`; app.py has no prefill. `Reload.ReloadRestoresAnswers` states only that the keys match and that the string parses back to the score.
