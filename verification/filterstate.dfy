/**
  The page's filter state and the handlers that change it.

  The state is the selected day and the set of active categories. The user
  changes it by clicking a day button, the "Todos" button, or one category
  button; each click yields the next state, the storage writes it makes and
  whether the schedule is rendered again. Restoring the set from storage
  keeps only known category names and turns an empty result into every
  category.
*/
module FilterState {
  import opened Entries

  datatype State = State(selectedDay: int, active: set<Category>)

  /** Day 13 selected, every category active. */
  const InitialState: State := State(13, AllCategories)

  datatype Event = DayClicked(day: int) | AllClicked | CategoryClicked(c: Category)

  /** A write to durable storage, under the day key or the filters key. */
  datatype Write = SaveDay(day: int) | SaveFilters(names: seq<string>)

  datatype Outcome = Outcome(next: State, writes: seq<Write>, rerender: bool)

  /** Flips one category's membership. */
  function Toggle(active: set<Category>, c: Category): (r: set<Category>)
    ensures c in r <==> c !in active
    ensures forall d :: d != c ==> (d in r <==> d in active)
  {
    if c in active then active - {c} else active + {c}
  }

  /** Toggling the same category twice restores the set. */
  lemma ToggleTwice(active: set<Category>, c: Category)
    ensures Toggle(Toggle(active, c), c) == active
  {
  }

  /** Toggles on distinct categories commute. */
  lemma ToggleCommutes(active: set<Category>, c: Category, d: Category)
    ensures Toggle(Toggle(active, c), d) == Toggle(Toggle(active, d), c)
  {
  }

  /** "Todos": clears the set when every category is active, and otherwise activates them all. */
  function ToggleAll(active: set<Category>): (r: set<Category>)
    ensures r == {} <==> (forall i :: 0 <= i < |FilterTypes| ==> FilterTypes[i] in active)
    ensures r != {} ==> r == AllCategories
  {
    var allActive := forall i :: 0 <= i < |FilterTypes| ==> FilterTypes[i] in active;
    if allActive then {} else AllCategories
  }

  /** Two presses of "Todos" from every category active return to every category active; from any other set they end empty. */
  lemma ToggleAllTwice(active: set<Category>)
    ensures active == AllCategories ==> ToggleAll(ToggleAll(active)) == AllCategories
    ensures active != AllCategories ==> ToggleAll(ToggleAll(active)) == {}
  {
    EveryCategoryListed(active);
    EveryCategoryListed({});
    EveryCategoryListed(AllCategories);
  }

  /** A set holds every category exactly when it holds each filter type listed. */
  lemma EveryCategoryListed(active: set<Category>)
    ensures active == AllCategories <==> forall i :: 0 <= i < |FilterTypes| ==> FilterTypes[i] in active
  {
    if InformaticaFilter in active && AutomotoresFilter in active {
      forall c | c in AllCategories
        ensures c in active
      {
      }
      forall c | c in active
        ensures c in AllCategories
      {
        match c
        case InformaticaFilter =>
        case AutomotoresFilter =>
      }
    }
    assert FilterTypes[0] == InformaticaFilter && FilterTypes[1] == AutomotoresFilter;
  }

  /** The category names a stored array mentions, each category once. */
  function KnownTypes(items: seq<string>): (r: set<Category>)
    ensures forall c :: c in r <==> CategoryName(c) in items
    decreases |items|
  {
    if |items| == 0 then {}
    else
      var front := KnownTypes(items[..|items| - 1]);
      var last := items[|items| - 1];
      assert forall s :: s in items <==> s in items[..|items| - 1] || s == last;
      match ParseCategory(last)
      case Some(c) => front + {c}
      case None => front
  }

  /** The value read under the filters key, after JSON parsing. */
  datatype Stored = Missing | Malformed | NotAList | List(items: seq<string>)

  datatype Restored = Restored(found: bool, active: set<Category>)

  /**
    Restoring the active set: anything but a parsed array leaves the set as
    it was and reports false; an array yields the known categories it names,
    or every category when it names none.
  */
  function Restore(stored: Stored, current: set<Category>): (r: Restored)
    ensures !stored.List? ==> !r.found && r.active == current
    ensures stored.List? ==> r.found && r.active != {}
    ensures stored.List? ==> forall c :: c in r.active <==>
              CategoryName(c) in stored.items || (forall d :: CategoryName(d) !in stored.items)
  {
    match stored
    case List(items) =>
      var known := KnownTypes(items);
      Restored(true, if known == {} then AllCategories else known)
    case _ => Restored(false, current)
  }

  /** The array written under the filters key for a set. */
  function Serialize(active: set<Category>): (names: seq<string>)
    ensures forall c :: CategoryName(c) in names <==> c in active
    ensures forall i :: 0 <= i < |names| ==> ParseCategory(names[i]).Some?
  {
    (if InformaticaFilter in active then ["informatica"] else []) +
    (if AutomotoresFilter in active then ["automotores"] else [])
  }

  /** Saving and restoring a non-empty set gives the same set back. */
  lemma SaveThenRestore(active: set<Category>, current: set<Category>)
    requires active != {}
    ensures Restore(List(Serialize(active)), current) == Restored(true, active)
  {
    var names := Serialize(active);
    var known := KnownTypes(names);
    forall d
      ensures d in known <==> d in active
    {
    }
    assert known == active;
  }

  /** Saving the empty set and restoring it gives every category. */
  lemma SaveEmptyRestoresAll(current: set<Category>)
    ensures Restore(List(Serialize({})), current) == Restored(true, AllCategories)
  {
    assert Serialize({}) == [];
  }

  /** The handler of one click. */
  function Step(s: State, ev: Event): (o: Outcome)
    ensures ev.DayClicked? ==> o.next.active == s.active
    ensures !ev.DayClicked? ==> o.next.selectedDay == s.selectedDay
    ensures ev.DayClicked? && ev.day == s.selectedDay ==> o == Outcome(s, [], false)
    ensures ev.DayClicked? && ev.day != s.selectedDay ==>
              o.next.selectedDay == ev.day && o.writes == [SaveDay(ev.day)] && o.rerender
    ensures !ev.DayClicked? ==> o.writes == [SaveFilters(Serialize(o.next.active))] && o.rerender
    ensures ev.CategoryClicked? ==> o.next.active == Toggle(s.active, ev.c)
    ensures ev.AllClicked? ==> o.next.active == ToggleAll(s.active)
  {
    match ev
    case DayClicked(day) =>
      if day == s.selectedDay then Outcome(s, [], false)
      else Outcome(s.(selectedDay := day), [SaveDay(day)], true)
    case AllClicked =>
      var next := s.(active := ToggleAll(s.active));
      Outcome(next, [SaveFilters(Serialize(next.active))], true)
    case CategoryClicked(c) =>
      var next := s.(active := Toggle(s.active, c));
      Outcome(next, [SaveFilters(Serialize(next.active))], true)
  }

  /** Whatever a click writes describes the state it leaves behind. */
  lemma WritesMatchState(s: State, ev: Event)
    ensures forall w :: w in Step(s, ev).writes ==>
              (w.SaveDay? ==> w.day == Step(s, ev).next.selectedDay) &&
              (w.SaveFilters? ==> Restore(List(w.names), s.active).active ==
                                  (if Step(s, ev).next.active == {} then AllCategories else Step(s, ev).next.active))
  {
    var o := Step(s, ev);
    if !ev.DayClicked? {
      if o.next.active == {} {
        SaveEmptyRestoresAll(s.active);
      } else {
        SaveThenRestore(o.next.active, s.active);
      }
    }
  }

  /** Clicking the same category twice returns to the starting state. */
  lemma CategoryClickTwice(s: State, c: Category)
    ensures Step(Step(s, CategoryClicked(c)).next, CategoryClicked(c)).next == s
  {
    ToggleTwice(s.active, c);
  }
}
