/**
  The data each rendered row derives from its entry.

  A row carries its entry's time and activity, the bar colour looked up by
  type name (falling back to the colour of `other`), a chip label, and an
  entrance delay that grows with the row's position in the filtered view and
  saturates at half a second. Delays are held in hundredths of a second, the
  precision the stylesheet receives.
*/
module Rows {
  import opened Entries
  import opened Filter

  /** The five bar gradients, as opaque tokens. */
  datatype Colour = CyanGradient | MagentaGradient | PurpleGradient | GreyBlueGradient | TealGradient

  /** The colour table, keyed by type name. */
  const TypeColours: map<string, Colour> := map[
    "informatica" := CyanGradient,
    "automotores" := MagentaGradient,
    "general" := PurpleGradient,
    "other" := GreyBlueGradient,
    "receso" := TealGradient
  ]

  function BarColour(k: Kind): (c: Colour)
    ensures KindName(k) in TypeColours ==> c == TypeColours[KindName(k)]
    ensures KindName(k) !in TypeColours ==> c == TypeColours["other"]
  {
    var name := KindName(k);
    if name in TypeColours then TypeColours[name] else TypeColours["other"]
  }

  /** Known kinds have pairwise distinct colours; every unknown kind shares the colour of `other`. */
  lemma BarColourDistinct(k1: Kind, k2: Kind)
    requires WellFormedKind(k1) && WellFormedKind(k2)
    ensures !k1.Unknown? && !k2.Unknown? ==> (BarColour(k1) == BarColour(k2) <==> k1 == k2)
    ensures k1.Unknown? ==> BarColour(k1) == BarColour(Other)
  {
  }

  /** The label of a category's filter button. */
  function ButtonLabel(c: Category): (text: string)
    ensures text == "Informática" || text == "Automotor"
    ensures text == "Informática" <==> CategoryKind(c) == Informatica
  {
    if CategoryName(c) == "informatica" then "Informática" else "Automotor"
  }

  /**
    The chip a row shows: `receso` rows have none, the two filterable kinds
    show their label, and every other kind shows an empty chip.
  */
  function Chip(k: Kind): (chip: Option<string>)
    ensures chip.None? <==> KindName(k) == "receso"
    ensures chip.Some? && chip.value != "" <==> KindName(k) in {"informatica", "automotores"}
  {
    if KindName(k) == "receso" then None
    else Some(if KindName(k) == "informatica" then "Informática"
              else if KindName(k) == "automotores" then "Automotor"
              else "")
  }

  /** A filterable row's chip says the same as its category's filter button. */
  lemma ChipMatchesButton(c: Category)
    ensures Chip(CategoryKind(c)) == Some(ButtonLabel(c))
  {
  }

  const DelayStep: nat := 4
  const DelayBase: nat := 2
  const DelayCap: nat := 50

  /** The entrance delay of the row at `position` in the filtered view, in hundredths of a second. */
  function Delay(position: nat): (d: nat)
    ensures DelayBase <= d <= DelayCap
    ensures d == DelayCap || d == DelayStep * position + DelayBase
  {
    if DelayStep * position + DelayBase < DelayCap then DelayStep * position + DelayBase else DelayCap
  }

  /** Later rows never start earlier. */
  lemma DelayMonotone(i: nat, j: nat)
    requires i <= j
    ensures Delay(i) <= Delay(j)
  {
  }

  /** Below the cap every row starts one step after the previous one; from row 12 on, all rows share the cap. */
  lemma DelaySaturates(i: nat)
    ensures i < 12 ==> Delay(i + 1) == Delay(i) + DelayStep
    ensures i >= 12 <==> Delay(i) == DelayCap
  {
  }

  datatype Row = Row(
    time: string,
    activity: string,
    kind: Kind,
    isReceso: bool,
    bar: Colour,
    chip: Option<string>,
    delay: nat)

  /** The row built for `e` at `position` in the filtered view. */
  function MakeRow(e: Entry, position: nat): (row: Row)
    ensures row.time == e.time && row.activity == e.activity && row.kind == e.kind
    ensures row.isReceso <==> row.chip.None?
    ensures row.isReceso <==> KindName(e.kind) == "receso"
    ensures row.bar == BarColour(e.kind) && row.chip == Chip(e.kind) && row.delay == Delay(position)
    ensures row.delay <= DelayCap
  {
    Row(e.time, e.activity, e.kind, KindName(e.kind) == "receso", BarColour(e.kind), Chip(e.kind), Delay(position))
  }

  /**
    Builds the rows of a day for an active set, one per kept entry, numbering
    them by their position among the kept entries only.
  */
  method RenderRows(dayItems: seq<Entry>, active: set<Category>) returns (rows: seq<Row>)
    ensures |rows| == |FilterDay(dayItems, active)|
    ensures forall k :: 0 <= k < |rows| ==> rows[k] == MakeRow(FilterDay(dayItems, active)[k], k)
    ensures forall k, l :: 0 <= k <= l < |rows| ==> rows[k].delay <= rows[l].delay
  {
    rows := [];
    var visibleIndex: nat := 0;
    for i := 0 to |dayItems|
      invariant visibleIndex == |rows| == |FilterDay(dayItems[..i], active)|
      invariant forall k :: 0 <= k < |rows| ==> rows[k] == MakeRow(FilterDay(dayItems[..i], active)[k], k)
    {
      FilterPrefixStep(dayItems, active, i);
      var item := dayItems[i];
      if Keeps(active, item) {
        rows := rows + [MakeRow(item, visibleIndex)];
        visibleIndex := visibleIndex + 1;
      }
    }
    assert dayItems[..|dayItems|] == dayItems;
    forall k, l | 0 <= k <= l < |rows|
      ensures rows[k].delay <= rows[l].delay
    {
      DelayMonotone(k, l);
    }
  }
}
