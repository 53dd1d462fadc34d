/**
  The filter predicate and the filtered view of a day.

  `receso` entries and every non-filterable kind are always kept; an
  `informatica` or `automotores` entry is kept when its category is active,
  or when no category is active at all (the empty set shows everything).
  Filtering keeps the day's order: the result is the day's entries at the
  kept positions, in increasing position order.
*/
module Filter {
  import opened Entries

  /** Kept when no category is active, or when every category gating the entry's kind is active. */
  function Keeps(active: set<Category>, e: Entry): (keep: bool)
    ensures keep <==> active == {} || forall c :: CategoryKind(c) == e.kind ==> c in active
  {
    match e.kind
    case Receso => true
    case Informatica => active == {} || InformaticaFilter in active
    case Automotores => active == {} || AutomotoresFilter in active
    case _ => true
  }

  /** The same rule stated on the raw type string, with the active set held as type names. */
  function KeepsTypeName(activeNames: set<string>, typeName: string): (keep: bool)
    ensures keep <==> typeName !in {"informatica", "automotores"} || |activeNames| == 0 || typeName in activeNames
  {
    if typeName == "receso" then true
    else if typeName == "informatica" || typeName == "automotores" then
      |activeNames| == 0 || typeName in activeNames
    else true
  }

  function ActiveNames(active: set<Category>): (names: set<string>)
    ensures |names| == 0 <==> active == {}
    ensures forall c :: c in active <==> CategoryName(c) in names
    ensures forall s :: s in names ==> exists c :: c in active && CategoryName(c) == s
  {
    var names := set c | c in active :: CategoryName(c);
    assert active != {} ==> var c :| c in active; CategoryName(c) in names;
    names
  }

  /** Deciding on the parsed kind agrees with comparing the raw type strings. */
  lemma KeepsMatchesTypeName(active: set<Category>, raw: RawEntry)
    ensures Keeps(active, ToEntry(raw)) == KeepsTypeName(ActiveNames(active), raw.typeName)
  {
    var names := ActiveNames(active);
    if raw.typeName == "informatica" {
      assert InformaticaFilter in active <==> "informatica" in names;
    } else if raw.typeName == "automotores" {
      assert AutomotoresFilter in active <==> "automotores" in names;
    }
  }

  /** With a non-empty active set, a filterable entry is kept exactly when its category is active. */
  lemma KeepsFilterable(active: set<Category>, e: Entry)
    requires active != {}
    requires WellFormedEntry(e) && FilterCategory(e.kind).Some?
    ensures Keeps(active, e) <==> FilterCategory(e.kind).value in active
  {
  }

  /** The filtered view of a day's entries, in the day's order. */
  function FilterDay(entries: seq<Entry>, active: set<Category>): (r: seq<Entry>)
    ensures |r| <= |entries|
    ensures forall k :: 0 <= k < |r| ==> Keeps(active, r[k])
    decreases |entries|
  {
    if |entries| == 0 then []
    else
      var last := entries[|entries| - 1];
      var prefix := FilterDay(entries[..|entries| - 1], active);
      if Keeps(active, last) then prefix + [last] else prefix
  }

  /** Extending the day by its next entry extends the view by that entry when it passes. */
  lemma FilterPrefixStep(entries: seq<Entry>, active: set<Category>, i: nat)
    requires i < |entries|
    ensures FilterDay(entries[..i + 1], active) ==
            FilterDay(entries[..i], active) + (if Keeps(active, entries[i]) then [entries[i]] else [])
  {
    assert entries[..i + 1][..i] == entries[..i];
  }

  /** An entry is in the view exactly when it is in the day and passes the filter. */
  lemma {:induction false} FilterMembers(entries: seq<Entry>, active: set<Category>, e: Entry)
    ensures e in FilterDay(entries, active) <==> e in entries && Keeps(active, e)
    decreases |entries|
  {
    if |entries| > 0 {
      var n := |entries| - 1;
      FilterMembers(entries[..n], active, e);
      assert entries == entries[..n] + [entries[n]];
    }
  }

  /** The positions of the day that the filter keeps, in increasing order. */
  function KeptIndices(entries: seq<Entry>, active: set<Category>): (idx: seq<nat>)
    ensures forall k :: 0 <= k < |idx| ==> idx[k] < |entries|
    ensures forall i :: 0 <= i < |entries| ==> (i in idx <==> Keeps(active, entries[i]))
    ensures StrictlyIncreasing(idx)
    decreases |entries|
  {
    if |entries| == 0 then []
    else
      var n := |entries| - 1;
      var prefix := KeptIndices(entries[..n], active);
      assert forall i :: 0 <= i < n ==> entries[..n][i] == entries[i];
      if Keeps(active, entries[n]) then prefix + [n] else prefix
  }

  predicate StrictlyIncreasing(idx: seq<nat>) {
    forall k, l :: 0 <= k < l < |idx| ==> idx[k] < idx[l]
  }

  /** `r` is `s` read at the positions `idx`. */
  predicate Embeds(r: seq<Entry>, s: seq<Entry>, idx: seq<nat>) {
    && |idx| == |r|
    && (forall k :: 0 <= k < |idx| ==> idx[k] < |s| && r[k] == s[idx[k]])
    && StrictlyIncreasing(idx)
  }

  /**
    The filtered view is the day read at exactly the kept positions, in
    order: nothing is reordered, duplicated or invented, and every kept
    position contributes.
  */
  lemma {:induction false} FilterEmbeds(entries: seq<Entry>, active: set<Category>)
    ensures Embeds(FilterDay(entries, active), entries, KeptIndices(entries, active))
    decreases |entries|
  {
    if |entries| > 0 {
      var n := |entries| - 1;
      var front := entries[..n];
      FilterEmbeds(front, active);
      var r := FilterDay(front, active);
      var idx := KeptIndices(front, active);
      assert forall k :: 0 <= k < |idx| ==> idx[k] < n && r[k] == entries[idx[k]];
      var last := entries[n];
      if Keeps(active, last) {
        var r' := r + [last];
        var idx' := idx + [n];
        assert FilterDay(entries, active) == r';
        assert KeptIndices(entries, active) == idx';
        assert r'[|idx|] == entries[idx'[|idx|]];
        assert forall k :: 0 <= k < |idx| ==> r'[k] == r[k] && idx'[k] == idx[k];
      } else {
        assert FilterDay(entries, active) == r;
        assert KeptIndices(entries, active) == idx;
      }
    }
  }

  /** Filtering distributes over concatenation of days. */
  lemma {:induction false} FilterAppend(a: seq<Entry>, b: seq<Entry>, active: set<Category>)
    ensures FilterDay(a + b, active) == FilterDay(a, active) + FilterDay(b, active)
    decreases |b|
  {
    if |b| > 0 {
      var n := |b| - 1;
      var ab := a + b;
      assert ab[..|ab| - 1] == a + b[..n];
      assert ab[|ab| - 1] == b[n];
      var tail := if Keeps(active, b[n]) then [b[n]] else [];
      assert FilterDay(ab, active) == FilterDay(a + b[..n], active) + tail;
      assert FilterDay(b, active) == FilterDay(b[..n], active) + tail;
      FilterAppend(a, b[..n], active);
    } else {
      assert a + b == a;
    }
  }

  /** When the filter keeps every entry, the view is the whole day. */
  lemma {:induction false} FilterKeepsAll(entries: seq<Entry>, active: set<Category>)
    requires forall i :: 0 <= i < |entries| ==> Keeps(active, entries[i])
    ensures FilterDay(entries, active) == entries
    decreases |entries|
  {
    if |entries| > 0 {
      var n := |entries| - 1;
      FilterKeepsAll(entries[..n], active);
      assert entries[..n] + [entries[n]] == entries;
    }
  }

  /** An empty active set shows the whole day. */
  lemma EmptyShowsAll(entries: seq<Entry>)
    ensures FilterDay(entries, {}) == entries
  {
    FilterKeepsAll(entries, {});
  }

  /** Every category active also shows the whole day, so it agrees with the empty set. */
  lemma AllActiveShowsAll(entries: seq<Entry>)
    ensures FilterDay(entries, AllCategories) == entries
    ensures FilterDay(entries, AllCategories) == FilterDay(entries, {})
  {
    FilterKeepsAll(entries, AllCategories);
    EmptyShowsAll(entries);
  }

  /** Filtering an already filtered view changes nothing. */
  lemma FilterIdempotent(entries: seq<Entry>, active: set<Category>)
    ensures FilterDay(FilterDay(entries, active), active) == FilterDay(entries, active)
  {
    FilterKeepsAll(FilterDay(entries, active), active);
  }

  /** Every entry of a non-filterable kind, `receso` included, keeps its place in the view. */
  lemma NonFilterableKept(entries: seq<Entry>, active: set<Category>, i: int)
    requires 0 <= i < |entries|
    requires WellFormedEntry(entries[i]) && FilterCategory(entries[i].kind).None?
    ensures i in KeptIndices(entries, active)
    ensures exists k :: 0 <= k < |FilterDay(entries, active)| == |KeptIndices(entries, active)| &&
                        KeptIndices(entries, active)[k] == i && FilterDay(entries, active)[k] == entries[i]
  {
    FilterEmbeds(entries, active);
    var idx := KeptIndices(entries, active);
    var k :| 0 <= k < |idx| && idx[k] == i;
    assert FilterDay(entries, active)[k] == entries[i];
  }
}
