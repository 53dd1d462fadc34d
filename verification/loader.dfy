/**
  Loading the schedule store and looking up one day.

  The transport and JSON decoding are not modelled; what arrives here is the
  outcome of the fetch, already decoded. A successful fetch of a JSON object
  becomes a map from day to entries, in which a day whose value is not an
  array holds no entries. Every other outcome degrades to the empty store.
*/
module Loader {
  import opened Entries

  /** The value a day key maps to in the decoded document. */
  datatype DayValue = DayArray(items: seq<RawEntry>) | NotArray

  /** The decoded top-level JSON value. Arrays, null and scalars fail the shape check. */
  datatype Document = ObjectDoc(days: map<int, DayValue>) | ArrayDoc | NotObject

  /** What the fetch produced: a transport failure, or a status and a body that may not decode. */
  datatype FetchOutcome = NetworkError | Response(status: int, body: Option<Document>)

  type Store = map<int, seq<Entry>>

  predicate WellFormedStore(store: Store) {
    forall d :: d in store ==> forall i :: 0 <= i < |store[d]| ==> WellFormedEntry(store[d][i])
  }

  /** A fetch response is usable only with a 2xx status. */
  predicate IsOk(status: int) {
    200 <= status <= 299
  }

  function ToEntries(items: seq<RawEntry>): (es: seq<Entry>)
    ensures |es| == |items|
    ensures forall i :: 0 <= i < |items| ==> es[i] == ToEntry(items[i])
  {
    seq(|items|, i requires 0 <= i < |items| => ToEntry(items[i]))
  }

  /** The normalised store of a decoded object: one key per day, non-arrays become empty days. */
  function Normalize(days: map<int, DayValue>): (store: Store)
    ensures store.Keys == days.Keys
    ensures forall d :: d in days && days[d].NotArray? ==> store[d] == []
    ensures forall d :: d in days && days[d].DayArray? ==>
              |store[d]| == |days[d].items| &&
              forall i :: 0 <= i < |store[d]| ==> ToRaw(store[d][i]) == days[d].items[i]
    ensures WellFormedStore(store)
  {
    map d | d in days :: if days[d].DayArray? then ToEntries(days[d].items) else []
  }

  /** The document a fetch outcome yields, when it yields one that passes the shape check. */
  function LoadedDays(f: FetchOutcome): (r: Option<map<int, DayValue>>)
    ensures r.Some? <==> f.Response? && IsOk(f.status) && f.body.Some? && f.body.value.ObjectDoc?
    ensures r.Some? ==> r.value == f.body.value.days
  {
    match f
    case NetworkError => None
    case Response(status, body) =>
      if !IsOk(status) then None
      else match body
        case None => None
        case Some(ObjectDoc(days)) => Some(days)
        case Some(_) => None
  }

  function Load(f: FetchOutcome): (store: Store)
    ensures WellFormedStore(store)
    ensures f.NetworkError? ==> store == map[]
    ensures f.Response? && !IsOk(f.status) ==> store == map[]
    ensures f.Response? && (f.body.None? || !f.body.value.ObjectDoc?) ==> store == map[]
    ensures f.Response? && IsOk(f.status) && f.body.Some? && f.body.value.ObjectDoc? ==>
              store.Keys == f.body.value.days.Keys
  {
    match LoadedDays(f)
    case None => map[]
    case Some(days) => Normalize(days)
  }

  /** The entries of one day; an absent day has none. */
  function DayEntries(store: Store, day: int): (es: seq<Entry>)
    ensures day !in store ==> es == []
    ensures day in store ==> es == store[day]
  {
    if day in store then store[day] else []
  }

  /**
    Looking a day up in a loaded store gives the day's array, parsed, when the
    fetch succeeded with an object holding an array for that day, and nothing
    in every other case.
  */
  lemma LoadThenLookup(f: FetchOutcome, day: int)
    ensures var es := DayEntries(Load(f), day);
            match LoadedDays(f)
            case Some(days) =>
              if day in days && days[day].DayArray? then es == ToEntries(days[day].items)
              else es == []
            case None => es == []
  {
  }
}
