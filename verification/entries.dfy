/**
  Schedule entries and their type tags.

  A schedule entry carries a free-form time, a free-form activity and a type
  tag. The source compares the tag as a string; here it is parsed once into
  `Kind`, whose `Unknown` case keeps any tag that is not one of the five known
  names. Only two kinds are filterable; they form the `Category` type that
  the active-filter set is drawn from.
*/
module Entries {

  datatype Option<+T> = None | Some(value: T)

  datatype Kind = Informatica | Automotores | General | Other | Receso | Unknown(name: string)

  /** The two categories the user can switch on and off. */
  datatype Category = InformaticaFilter | AutomotoresFilter

  /** One row of a day, as read from the data file. */
  datatype RawEntry = RawEntry(time: string, activity: string, typeName: string)

  /** One row of a day, with its type tag parsed. */
  datatype Entry = Entry(time: string, activity: string, kind: Kind)

  const KnownNames: set<string> := {"informatica", "automotores", "general", "other", "receso"}

  /** Every filterable category, in the order the filter buttons list them. */
  const FilterTypes: seq<Category> := [InformaticaFilter, AutomotoresFilter]

  const AllCategories: set<Category> := {InformaticaFilter, AutomotoresFilter}

  /** An `Unknown` tag never spells one of the known names. */
  predicate WellFormedKind(k: Kind) {
    k.Unknown? ==> k.name !in KnownNames
  }

  function KindName(k: Kind): string {
    match k
    case Informatica => "informatica"
    case Automotores => "automotores"
    case General => "general"
    case Other => "other"
    case Receso => "receso"
    case Unknown(n) => n
  }

  function ParseKind(s: string): (k: Kind)
    ensures WellFormedKind(k)
    ensures KindName(k) == s
    ensures k.Unknown? <==> s !in KnownNames
  {
    if s == "informatica" then Informatica
    else if s == "automotores" then Automotores
    else if s == "general" then General
    else if s == "other" then Other
    else if s == "receso" then Receso
    else Unknown(s)
  }

  /** Parsing the name of a well-formed kind gives the kind back. */
  lemma ParseKindName(k: Kind)
    requires WellFormedKind(k)
    ensures ParseKind(KindName(k)) == k
  {
  }

  function CategoryName(c: Category): string {
    match c
    case InformaticaFilter => "informatica"
    case AutomotoresFilter => "automotores"
  }

  /** The category a stored string names, if it names one. */
  function ParseCategory(s: string): (r: Option<Category>)
    ensures r.Some? <==> s == "informatica" || s == "automotores"
    ensures r.Some? ==> CategoryName(r.value) == s
  {
    if s == "informatica" then Some(InformaticaFilter)
    else if s == "automotores" then Some(AutomotoresFilter)
    else None
  }

  /** The category a kind is gated by, or None when the kind is never gated. */
  function FilterCategory(k: Kind): (r: Option<Category>)
    requires WellFormedKind(k)
    ensures r.Some? <==> KindName(k) in {"informatica", "automotores"}
    ensures r.Some? ==> CategoryName(r.value) == KindName(k)
  {
    match k
    case Informatica => Some(InformaticaFilter)
    case Automotores => Some(AutomotoresFilter)
    case _ => None
  }

  function CategoryKind(c: Category): (k: Kind)
    ensures WellFormedKind(k)
    ensures FilterCategory(k) == Some(c)
  {
    match c
    case InformaticaFilter => Informatica
    case AutomotoresFilter => Automotores
  }

  predicate WellFormedEntry(e: Entry) {
    WellFormedKind(e.kind)
  }

  function ToEntry(raw: RawEntry): (e: Entry)
    ensures WellFormedEntry(e)
    ensures e.time == raw.time && e.activity == raw.activity
  {
    Entry(raw.time, raw.activity, ParseKind(raw.typeName))
  }

  function ToRaw(e: Entry): RawEntry {
    RawEntry(e.time, e.activity, KindName(e.kind))
  }

  /** Parsing an entry loses nothing: the raw row can be rebuilt from it. */
  lemma EntryRoundTrip(raw: RawEntry)
    ensures ToRaw(ToEntry(raw)) == raw
  {
  }

  /** And every well-formed entry is the parse of its raw form. */
  lemma RawRoundTrip(e: Entry)
    requires WellFormedEntry(e)
    ensures ToEntry(ToRaw(e)) == e
  {
    ParseKindName(e.kind);
  }
}
