/**
 * Copying a saved evaluation into Streamlit's `session_state` (test_session_state.py): under
 * a per-participant guard, every saved answer is written to the widget keys `cal_<question>`
 * and `obs_<question>`, and the saved conclusion to `conclusion_guardada`.
 */
module Session {
  import opened Options
  import opened Seqs
  import opened Dicts
  import opened Decimals

  /** A value in `session_state`: the boolean guard flag or a string. */
  datatype Value = Flag(b: bool) | Str(s: string)

  /** One saved answer; each field may be missing from the stored document. */
  datatype SavedItem = SavedItem(
    descripcion: Option<string>,
    calificacion: Option<int>,
    observaciones: Option<string>)

  /** A stored evaluation as read back; either field may be missing. */
  datatype SavedEvaluation = SavedEvaluation(
    evaluaciones: Option<seq<SavedItem>>,
    conclusion: Option<string>)

  const ConclusionKey: string := "conclusion_guardada"

  /** `f"loaded_{nombre}_{area}"`. */
  function LoadedKey(nombre: string, area: string): string {
    "loaded_" + nombre + "_" + area
  }

  /** `f"cal_{desc}"`. */
  function CalKey(desc: string): string {
    "cal_" + desc
  }

  /** `f"obs_{desc}"`. */
  function ObsKey(desc: string): string {
    "obs_" + desc
  }

  /** `ev.get('descripcion', '')`. */
  function Desc(item: SavedItem): string {
    item.descripcion.GetOr("")
  }

  /** `str(ev.get('calificacion', ''))`. */
  function ScoreText(item: SavedItem): string {
    match item.calificacion
    case Some(n) => Decimal(n)
    case None => ""
  }

  /** `ev.get('observaciones', '')`. */
  function ObservationText(item: SavedItem): string {
    item.observaciones.GetOr("")
  }

  /** `evaluacion_guardada.get('evaluaciones', [])`. */
  function SavedItems(saved: SavedEvaluation): seq<SavedItem> {
    saved.evaluaciones.GetOr([])
  }

  // ----- The prefill as a function of the state -----

  /** The loop of lines 32-35: the two keys of each item written in turn. */
  function WriteItems(d: Dict<Value>, items: seq<SavedItem>): Dict<Value>
    decreases |items|
  {
    if items == [] then d
    else
      var item := items[0];
      WriteItems(d.Set(CalKey(Desc(item)), Str(ScoreText(item)))
                  .Set(ObsKey(Desc(item)), Str(ObservationText(item))), items[1..])
  }

  /** The whole guarded block, lines 29-37. */
  function Prefilled(d: Dict<Value>, nombre: string, area: string, saved: SavedEvaluation): Dict<Value> {
    if LoadedKey(nombre, area) in d.entries then d
    else
      WriteItems(d.Set(LoadedKey(nombre, area), Flag(true)), SavedItems(saved))
        .Set(ConclusionKey, Str(saved.conclusion.GetOr("")))
  }

  /** The widget keys the items write. */
  function ItemKeys(items: seq<SavedItem>): set<string>
    decreases |items|
  {
    if items == [] then {} else {CalKey(Desc(items[0])), ObsKey(Desc(items[0]))} + ItemKeys(items[1..])
  }

  /** Every key the prefill may write. */
  function WrittenKeys(nombre: string, area: string, saved: SavedEvaluation): set<string> {
    {LoadedKey(nombre, area), ConclusionKey} + ItemKeys(SavedItems(saved))
  }

  // ----- Keys of different kinds never collide -----

  lemma KeyKindsDiffer(nombre: string, area: string, d1: string, d2: string)
    ensures CalKey(d1) != ObsKey(d2)
    ensures CalKey(d1) != ConclusionKey && ObsKey(d1) != ConclusionKey
    ensures CalKey(d1) != LoadedKey(nombre, area) && ObsKey(d1) != LoadedKey(nombre, area)
    ensures LoadedKey(nombre, area) != ConclusionKey
  {
    assert CalKey(d1)[0] == 'c' && CalKey(d1)[1] == 'a';
    assert ObsKey(d1)[0] == 'o' && ObsKey(d2)[0] == 'o';
    assert LoadedKey(nombre, area)[0] == 'l';
    assert ConclusionKey[1] == 'o';
  }

  lemma KeysInjective(d1: string, d2: string)
    ensures CalKey(d1) == CalKey(d2) ==> d1 == d2
    ensures ObsKey(d1) == ObsKey(d2) ==> d1 == d2
  {
    if CalKey(d1) == CalKey(d2) {
      assert d1 == CalKey(d1)[4..] && d2 == CalKey(d2)[4..];
    }
    if ObsKey(d1) == ObsKey(d2) {
      assert d1 == ObsKey(d1)[4..] && d2 == ObsKey(d2)[4..];
    }
  }

  /** `k` is a key that some item writes. */
  lemma {:induction false} ItemKeysMembers(items: seq<SavedItem>, k: string)
    ensures k in ItemKeys(items) <==>
              exists i :: 0 <= i < |items| && (k == CalKey(Desc(items[i])) || k == ObsKey(Desc(items[i])))
    decreases |items|
  {
    if items != [] {
      ItemKeysMembers(items[1..], k);
      if exists i :: 0 <= i < |items| && (k == CalKey(Desc(items[i])) || k == ObsKey(Desc(items[i]))) {
        var i :| 0 <= i < |items| && (k == CalKey(Desc(items[i])) || k == ObsKey(Desc(items[i])));
        if i > 0 {
          assert items[1..][i - 1] == items[i];
        }
      }
      if k in ItemKeys(items[1..]) {
        var i :| 0 <= i < |items[1..]| && (k == CalKey(Desc(items[1..][i])) || k == ObsKey(Desc(items[1..][i])));
        assert items[i + 1] == items[1..][i];
      }
    }
  }

  // ----- Properties of the prefill -----

  /** The items loop touches only its own keys and adds exactly those. */
  lemma {:induction false} WriteItemsFrame(d: Dict<Value>, items: seq<SavedItem>)
    ensures WriteItems(d, items).entries.Keys == d.entries.Keys + ItemKeys(items)
    ensures forall k :: k in d.entries && k !in ItemKeys(items) ==>
              WriteItems(d, items).entries[k] == d.entries[k]
    ensures d.Valid() ==> WriteItems(d, items).Valid()
    ensures d.order <= WriteItems(d, items).order
    decreases |items|
  {
    if items != [] {
      var item := items[0];
      var d' := d.Set(CalKey(Desc(item)), Str(ScoreText(item))).Set(ObsKey(Desc(item)), Str(ObservationText(item)));
      WriteItemsFrame(d', items[1..]);
    }
  }

  /**
   * After the items loop, the keys of an item that no later item shares hold that item's
   * score text and observation: when two items share a description, the later one wins.
   */
  lemma {:induction false} WriteItemsLastWins(d: Dict<Value>, items: seq<SavedItem>, i: nat)
    requires i < |items|
    requires forall j :: i < j < |items| ==> Desc(items[j]) != Desc(items[i])
    ensures CalKey(Desc(items[i])) in WriteItems(d, items).entries
    ensures WriteItems(d, items).entries[CalKey(Desc(items[i]))] == Str(ScoreText(items[i]))
    ensures ObsKey(Desc(items[i])) in WriteItems(d, items).entries
    ensures WriteItems(d, items).entries[ObsKey(Desc(items[i]))] == Str(ObservationText(items[i]))
    decreases |items|
  {
    var item := items[0];
    var d' := d.Set(CalKey(Desc(item)), Str(ScoreText(item))).Set(ObsKey(Desc(item)), Str(ObservationText(item)));
    if i > 0 {
      WriteItemsLastWins(d', items[1..], i - 1);
    } else {
      var desc := Desc(item);
      KeyKindsDiffer("", "", desc, desc);
      WriteItemsFrame(d', items[1..]);
      forall k | k == CalKey(desc) || k == ObsKey(desc) ensures k !in ItemKeys(items[1..]) {
        ItemKeysMembers(items[1..], k);
        forall j | 0 <= j < |items[1..]| ensures k != CalKey(Desc(items[1..][j])) && k != ObsKey(Desc(items[1..][j])) {
          assert items[1..][j] == items[j + 1];
          KeysInjective(desc, Desc(items[j + 1]));
          KeyKindsDiffer("", "", desc, Desc(items[j + 1]));
          KeyKindsDiffer("", "", Desc(items[j + 1]), desc);
        }
      }
    }
  }

  /** None of the item keys is the guard flag or the conclusion key. */
  lemma ItemKeysAvoid(nombre: string, area: string, items: seq<SavedItem>)
    ensures LoadedKey(nombre, area) !in ItemKeys(items)
    ensures ConclusionKey !in ItemKeys(items)
  {
    forall k | k == LoadedKey(nombre, area) || k == ConclusionKey ensures k !in ItemKeys(items) {
      ItemKeysMembers(items, k);
      forall j | 0 <= j < |items| ensures k != CalKey(Desc(items[j])) && k != ObsKey(Desc(items[j])) {
        KeyKindsDiffer(nombre, area, Desc(items[j]), Desc(items[j]));
      }
    }
  }

  /** If the guard flag is present the state is left as it is. */
  lemma PrefillGuarded(d: Dict<Value>, nombre: string, area: string, saved: SavedEvaluation)
    requires LoadedKey(nombre, area) in d.entries
    ensures Prefilled(d, nombre, area, saved) == d
  {
  }

  /**
   * A run that finds no guard sets the flag, writes the saved conclusion (or `''`), writes
   * the keys of the saved items, adds no other key and changes no other key's value.
   */
  lemma PrefillWrites(d: Dict<Value>, nombre: string, area: string, saved: SavedEvaluation)
    requires LoadedKey(nombre, area) !in d.entries
    ensures LoadedKey(nombre, area) in Prefilled(d, nombre, area, saved).entries
    ensures Prefilled(d, nombre, area, saved).entries[LoadedKey(nombre, area)] == Flag(true)
    ensures Prefilled(d, nombre, area, saved).entries[ConclusionKey] == Str(saved.conclusion.GetOr(""))
    ensures Prefilled(d, nombre, area, saved).entries.Keys == d.entries.Keys + WrittenKeys(nombre, area, saved)
    ensures forall k :: k in d.entries && k !in WrittenKeys(nombre, area, saved) ==>
              Prefilled(d, nombre, area, saved).entries[k] == d.entries[k]
  {
    var flagged := d.Set(LoadedKey(nombre, area), Flag(true));
    WriteItemsFrame(flagged, SavedItems(saved));
    ItemKeysAvoid(nombre, area, SavedItems(saved));
    KeyKindsDiffer(nombre, area, "", "");
  }

  /**
   * For each saved item that no later item shares a description with, `cal_<desc>` holds its
   * score as text and `obs_<desc>` its observation.
   */
  lemma PrefillItem(d: Dict<Value>, nombre: string, area: string, saved: SavedEvaluation, i: nat)
    requires LoadedKey(nombre, area) !in d.entries
    requires i < |SavedItems(saved)|
    requires forall j :: i < j < |SavedItems(saved)| ==> Desc(SavedItems(saved)[j]) != Desc(SavedItems(saved)[i])
    ensures CalKey(Desc(SavedItems(saved)[i])) in Prefilled(d, nombre, area, saved).entries
    ensures Prefilled(d, nombre, area, saved).entries[CalKey(Desc(SavedItems(saved)[i]))]
              == Str(ScoreText(SavedItems(saved)[i]))
    ensures ObsKey(Desc(SavedItems(saved)[i])) in Prefilled(d, nombre, area, saved).entries
    ensures Prefilled(d, nombre, area, saved).entries[ObsKey(Desc(SavedItems(saved)[i]))]
              == Str(ObservationText(SavedItems(saved)[i]))
  {
    var item := SavedItems(saved)[i];
    WriteItemsLastWins(d.Set(LoadedKey(nombre, area), Flag(true)), SavedItems(saved), i);
    KeyKindsDiffer(nombre, area, Desc(item), Desc(item));
  }

  /**
   * Without a saved `evaluaciones` list an unguarded run adds only the flag and the
   * conclusion key: no `cal_`/`obs_` key is written and every other value stays.
   */
  lemma PrefillWithoutItems(d: Dict<Value>, nombre: string, area: string, saved: SavedEvaluation)
    requires LoadedKey(nombre, area) !in d.entries
    requires saved.evaluaciones.None?
    ensures Prefilled(d, nombre, area, saved).entries.Keys == d.entries.Keys + {LoadedKey(nombre, area), ConclusionKey}
    ensures forall k :: k in d.entries && k != ConclusionKey && k != LoadedKey(nombre, area) ==>
              Prefilled(d, nombre, area, saved).entries[k] == d.entries[k]
  {
    PrefillWrites(d, nombre, area, saved);
    assert WrittenKeys(nombre, area, saved) == {LoadedKey(nombre, area), ConclusionKey};
  }

  /** Running the prefill a second time changes nothing. */
  lemma PrefillIdempotent(d: Dict<Value>, nombre: string, area: string, saved: SavedEvaluation, again: SavedEvaluation)
    ensures Prefilled(Prefilled(d, nombre, area, saved), nombre, area, again) == Prefilled(d, nombre, area, saved)
  {
    if LoadedKey(nombre, area) !in d.entries {
      PrefillWrites(d, nombre, area, saved);
    }
  }

  /** The keys already in the state keep their iteration order; new keys come after them. */
  lemma PrefillKeepsOrder(d: Dict<Value>, nombre: string, area: string, saved: SavedEvaluation)
    requires d.Valid()
    ensures Prefilled(d, nombre, area, saved).Valid()
    ensures d.order <= Prefilled(d, nombre, area, saved).order
  {
    if LoadedKey(nombre, area) !in d.entries {
      var flagged := d.Set(LoadedKey(nombre, area), Flag(true));
      var written := WriteItems(flagged, SavedItems(saved));
      SetKeepsOrder(d, LoadedKey(nombre, area), Flag(true));
      WriteItemsFrame(flagged, SavedItems(saved));
      SetKeepsOrder(written, ConclusionKey, Str(saved.conclusion.GetOr("")));
      assert d.order <= written.order;
    }
  }

  // ----- Display (lines 41-45) -----

  /** `str(value)`. */
  function Text(v: Value): string {
    match v
    case Flag(b) => if b then "True" else "False"
    case Str(s) => s
  }

  /** A value longer than 50 characters is cut to its first 50, followed by `...`. */
  function Shorten(s: string): (r: string)
    ensures |s| <= 50 ==> r == s
    ensures |s| > 50 ==> |r| == 53 && r[..50] == s[..50] && r[50..] == "..."
  {
    if |s| > 50 then s[..50] + "..." else s
  }

  /** The state as the script shows it: one line per key, in the state's iteration order. */
  method Display(d: Dict<Value>) returns (lines: seq<string>)
    requires d.Valid()
    ensures |lines| == |d.order|
    ensures forall i :: 0 <= i < |d.order| ==>
              lines[i] == "  " + d.order[i] + ": " + Shorten(Text(d.entries[d.order[i]]))
  {
    lines := [];
    var i := 0;
    while i < |d.order|
      invariant 0 <= i <= |d.order|
      invariant |lines| == i
      invariant forall j :: 0 <= j < i ==>
                  lines[j] == "  " + d.order[j] + ": " + Shorten(Text(d.entries[d.order[j]]))
    {
      var key := d.order[i];
      var value := Text(d.entries[key]);
      if |value| > 50 {
        lines := lines + ["  " + key + ": " + value[..50] + "..."];
      } else {
        lines := lines + ["  " + key + ": " + value];
      }
      i := i + 1;
    }
  }

  // ----- The session state object -----

  /** Streamlit's `st.session_state`, a dictionary the script updates in place. */
  class SessionState {
    var state: Dict<Value>

    ghost predicate Valid()
      reads this
    {
      state.Valid()
    }

    /** `session_state = {}`. */
    constructor ()
      ensures Valid() && state == Empty()
    {
      state := Empty();
    }

    /** Lines 29-37: the guarded copy of a saved evaluation into the state. */
    method Prefill(nombre: string, area: string, saved: SavedEvaluation)
      requires Valid()
      modifies this
      ensures Valid()
      ensures state == Prefilled(old(state), nombre, area, saved)
    {
      PrefillKeepsOrder(state, nombre, area, saved);
      var flag := LoadedKey(nombre, area);
      if flag !in state.entries {
        state := state.Set(flag, Flag(true));
        var items := if saved.evaluaciones.Some? then saved.evaluaciones.value else [];
        ghost var target := WriteItems(state, items);
        var i := 0;
        while i < |items|
          invariant 0 <= i <= |items|
          invariant WriteItems(state, items[i..]) == target
        {
          var ev := items[i];
          var desc := if ev.descripcion.Some? then ev.descripcion.value else "";
          var score := if ev.calificacion.Some? then Decimal(ev.calificacion.value) else "";
          var obs := if ev.observaciones.Some? then ev.observaciones.value else "";
          assert items[i..][1..] == items[i + 1..];
          state := state.Set("cal_" + desc, Str(score));
          state := state.Set("obs_" + desc, Str(obs));
          i := i + 1;
        }
        state := state.Set("conclusion_guardada", Str(if saved.conclusion.Some? then saved.conclusion.value else ""));
      }
    }
  }
}
