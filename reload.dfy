/**
 * A stored evaluation read back into the session state: the keys test_session_state.py
 * writes carry the names of the widget keys app.py uses (`cal_<question>`, `obs_<question>`),
 * and the text stored under each `cal_` key reads back as the saved score. The script itself
 * stores the score as a string; app.py contains no prefill.
 */
module Reload {
  import opened Options
  import opened Dicts
  import opened Decimals
  import opened App
  import opened Session

  /** A document of the collection as read back: every field present. */
  function AsSaved(doc: Document): SavedEvaluation {
    SavedEvaluation(
      Some(seq(|doc.evaluaciones|, i requires 0 <= i < |doc.evaluaciones| =>
        SavedItem(
          Some(doc.evaluaciones[i].descripcion),
          Some(doc.evaluaciones[i].calificacion),
          Some(doc.evaluaciones[i].observaciones)))),
      Some(doc.conclusion))
  }

  /**
   * Prefilling from a stored document puts each question's score, as text that reads back as
   * the score, under `cal_<question>`, its observation under `obs_<question>`, and the
   * conclusion under `conclusion_guardada` (for a question the document does not repeat later).
   */
  lemma ReloadRestoresAnswers(state: Dict<Value>, doc: Document, i: nat)
    requires LoadedKey(doc.nombre, doc.area) !in state.entries
    requires i < |doc.evaluaciones|
    requires forall j :: i < j < |doc.evaluaciones| ==>
               doc.evaluaciones[j].descripcion != doc.evaluaciones[i].descripcion
    ensures var filled := Prefilled(state, doc.nombre, doc.area, AsSaved(doc));
            var e := doc.evaluaciones[i];
            && CalKey(e.descripcion) in filled.entries
            && filled.entries[CalKey(e.descripcion)].Str?
            && ParseDecimal(filled.entries[CalKey(e.descripcion)].s) == Some(e.calificacion)
            && ObsKey(e.descripcion) in filled.entries
            && filled.entries[ObsKey(e.descripcion)] == Str(e.observaciones)
            && filled.entries[ConclusionKey] == Str(doc.conclusion)
  {
    var saved := AsSaved(doc);
    assert forall j :: 0 <= j < |doc.evaluaciones| ==> Desc(SavedItems(saved)[j]) == doc.evaluaciones[j].descripcion;
    PrefillItem(state, doc.nombre, doc.area, saved, i);
    PrefillWrites(state, doc.nombre, doc.area, saved);
    DecimalRoundTrip(doc.evaluaciones[i].calificacion);
  }
}
