/**
  One render pass of the schedule: the selected day's entries, filtered by
  the active set, turned into rows, and the counter text for them.
*/
module View {
  import opened Entries
  import opened Loader
  import opened Filter
  import opened Rows
  import opened Counter
  import opened FilterState

  /** A missing filter argument means every category. */
  function EffectiveFilters(filters: Option<set<Category>>): (active: set<Category>)
    ensures filters.None? ==> active == AllCategories
    ensures filters.Some? ==> active == filters.value
  {
    match filters
    case Some(f) => f
    case None => AllCategories
  }

  /** Rendering with no filter argument shows the whole day, the same as the empty set. */
  lemma NoFiltersShowsAll(entries: seq<Entry>)
    ensures FilterDay(entries, EffectiveFilters(None)) == entries
    ensures FilterDay(entries, EffectiveFilters(None)) == FilterDay(entries, EffectiveFilters(Some({})))
  {
    AllActiveShowsAll(entries);
  }

  /** The entries a state shows from a store. */
  function Visible(store: Store, s: State): (v: seq<Entry>)
    ensures s.selectedDay !in store ==> v == []
    ensures |v| <= |DayEntries(store, s.selectedDay)|
    ensures forall k :: 0 <= k < |v| ==> Keeps(s.active, v[k])
  {
    FilterDay(DayEntries(store, s.selectedDay), s.active)
  }

  /**
    Renders a day: rebuilds every row from scratch and recomputes the counter
    from the header plus the rows built.
  */
  method RenderSchedule(store: Store, day: int, filters: Option<set<Category>>)
    returns (rows: seq<Row>, counter: string)
    ensures var shown := FilterDay(DayEntries(store, day), EffectiveFilters(filters));
            |rows| == |shown| &&
            forall k :: 0 <= k < |rows| ==> rows[k] == MakeRow(shown[k], k)
    ensures counter == CounterText(|rows|)
    ensures day !in store ==> rows == [] && counter == "0 actividades"
  {
    var dayItems := DayEntries(store, day);
    var active := EffectiveFilters(filters);
    rows := RenderRows(dayItems, active);
    var headerAndRows := 1 + |rows|;
    CountUnderHeader(|rows|);
    counter := CounterText(VisibleCount(headerAndRows));
    CounterTextExamples();
  }

  /** After "Todos", whatever was active before, the whole selected day is shown. */
  lemma TodosShowsWholeDay(store: Store, s: State)
    ensures Visible(store, Step(s, AllClicked).next) == DayEntries(store, s.selectedDay)
  {
    var day := DayEntries(store, s.selectedDay);
    if Step(s, AllClicked).next.active == {} {
      EmptyShowsAll(day);
    } else {
      AllActiveShowsAll(day);
    }
  }

  /** Clicking a day button never changes which entries of a day pass the filter. */
  lemma DayClickKeepsFilter(store: Store, s: State, day: int)
    ensures Visible(store, Step(s, DayClicked(day)).next) == FilterDay(DayEntries(store, day), s.active)
  {
  }

  const Taller: RawEntry := RawEntry("14:00", "Taller de redes", "informatica")
  const Pausa: RawEntry := RawEntry("15:00", "Receso", "receso")
  const ScenarioFetch: FetchOutcome := Response(200, Some(ObjectDoc(map[13 := DayArray([Taller, Pausa])])))

  /** The scenario's store holds its two entries under day 13 and nothing under day 14. */
  lemma ScenarioStore()
    ensures DayEntries(Load(ScenarioFetch), 13) == [ToEntry(Taller), ToEntry(Pausa)]
    ensures DayEntries(Load(ScenarioFetch), 14) == []
  {
    LoadThenLookup(ScenarioFetch, 13);
    LoadThenLookup(ScenarioFetch, 14);
  }

  /** With one `informatica` and one `receso` entry, the initial state shows both. */
  lemma ScenarioInitialView()
    ensures Visible(Load(ScenarioFetch), InitialState) == [ToEntry(Taller), ToEntry(Pausa)]
  {
    ScenarioStore();
    AllActiveShowsAll([ToEntry(Taller), ToEntry(Pausa)]);
  }

  /** Switching `informatica` off leaves only the `receso` entry. */
  lemma ScenarioToggleView(s1: State)
    requires s1 == Step(InitialState, CategoryClicked(InformaticaFilter)).next
    ensures Visible(Load(ScenarioFetch), s1) == [ToEntry(Pausa)]
  {
    var info, pausa := ToEntry(Taller), ToEntry(Pausa);
    assert info.kind == Informatica && pausa.kind == Receso;
    var day := [info, pausa];
    ScenarioStore();
    assert s1 == State(13, {AutomotoresFilter});
    assert !Keeps(s1.active, info) && Keeps(s1.active, pausa);
    FilterPrefixStep(day, s1.active, 0);
    FilterPrefixStep(day, s1.active, 1);
    assert day[..2] == day && day[..0] == [];
  }

  /** Moving on to day 14, which has no data, shows nothing. */
  lemma ScenarioOtherDayView(s1: State, s2: State)
    requires s1 == Step(InitialState, CategoryClicked(InformaticaFilter)).next
    requires s2 == Step(s1, DayClicked(14)).next
    ensures Visible(Load(ScenarioFetch), s2) == []
  {
    ScenarioStore();
  }

  /**
    A day holding one `informatica` and one `receso` entry: with the initial
    filters both show ("2 actividades"); switching `informatica` off leaves
    the `receso` row ("1 actividad"); switching to day 14, which has no
    data, shows nothing ("0 actividades").
  */
  lemma TwoDayScenario(s1: State, s2: State)
    requires s1 == Step(InitialState, CategoryClicked(InformaticaFilter)).next
    requires s2 == Step(s1, DayClicked(14)).next
    ensures CounterText(|Visible(Load(ScenarioFetch), InitialState)|) == "2 actividades"
    ensures CounterText(|Visible(Load(ScenarioFetch), s1)|) == "1 actividad"
    ensures CounterText(|Visible(Load(ScenarioFetch), s2)|) == "0 actividades"
  {
    ScenarioInitialView();
    ScenarioToggleView(s1);
    ScenarioOtherDayView(s1, s2);
    CounterTextExamples();
  }
}
