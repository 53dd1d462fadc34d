# Schedule filter and state model

A Dafny model of the logic behind the event schedule ("cronograma") page in
`schedule.js`, with the DOM left out. The model covers these parts:

- **Loading** (`Loader`). A fetched JSON object becomes a store from day to
  entries. A day whose value is not an array becomes an empty day. A failed
  fetch, a non-2xx status, a body that does not decode, or a body that is not
  an object all give the empty store. Looking up a missing day gives no entries.
- **Entries** (`Entries`). A raw entry's type string is parsed into a `Kind`
  (`informatica`, `automotores`, `general`, `other`, `receso`, or
  `Unknown(name)`), and the raw entry can be rebuilt from the parse. The two
  filterable kinds form `Category`.
- **Filtering** (`Filter`). `receso` and every non-filterable kind are always
  kept. A filterable entry is kept when its category is active, or when the
  active set is empty. The filtered view is the day read at exactly the kept
  positions, in order.
- **Rows** (`Rows`). Each kept entry gets a bar colour looked up by type name,
  falling back to `other`. It also gets a chip label and a staggered entrance
  delay over its position in the filtered view. The delay is held in
  hundredths of a second as `min(4*i + 2, 50)`.
- **Filter state** (`FilterState`). There are three handlers: a single
  category toggle, the "Todos" button and the day buttons. Each is a step
  from state to next state, the storage writes it makes, and whether the
  schedule re-renders. Restoring the active set from a stored value is
  modelled here too.
- **Counter** (`Counter`). The header row is subtracted and the count
  clamped at zero. The text is pluralised (`1 actividad`, `N actividades`).
- **One render pass** (`View`). It ties these together. It also holds an
  end-to-end scenario over two days.

Behaviour of the code worth noting:

- Every row except a `receso` row gets a chip element (schedule.js:117-120).
  For `general`, `other` and unknown types the chip's text is empty.
- Entrance delays grow by one step per row up to row 12. From row 12 on
  every row gets the cap of half a second (schedule.js:102-103;
  `Rows.DelaySaturates`).
- Restoring from an absent, unparsable or non-array value leaves the
  in-memory set untouched (schedule.js:174-176, 183). At startup that set
  is every category (schedule.js:161).

## Model

| member | source | states |
|---|---|---|
| Entries.ParseKind | schedule.js:80-84 | the type string is read as one of five known kinds or as an unknown kind; the parse keeps the exact string and a string is unknown exactly when it is not a known name |
| Entries.ParseCategory | schedule.js:179 | only the strings `informatica` and `automotores` name a category, and the category found prints back as that string |
| Entries.FilterCategory | schedule.js:82 | a kind is gated by a category exactly when its name is `informatica` or `automotores`, and by the category of that name |
| Entries.EntryRoundTrip | schedule.js:31 | the loaded day keeps each raw entry unchanged: rebuilding a raw entry from its parse gives it back |
| Entries.RawRoundTrip | schedule.js:31 | every well-formed entry is the parse of its own raw form |
| Loader.Normalize | schedule.js:27-33 | the store has exactly the document's day keys; a non-array day becomes empty; an array day keeps its length and each entry |
| Loader.Load | schedule.js:21-42 | transport failure, non-2xx status, undecodable body and non-object body all give the empty store; a decoded object gives a store over its own keys |
| Loader.LoadedDays | schedule.js:23-41 | a fetch yields a document exactly when it is a response with a 2xx status whose body decodes to an object, and then it yields that object's days |
| Loader.LoadThenLookup | schedule.js:27-76 | looking a day up after loading gives that day's parsed array when the fetch succeeded with an array for it, and nothing otherwise |
| Filter.Keeps | schedule.js:80-84 | an entry is kept exactly when no category is active or every category gating its kind is active, so kinds no category gates are always kept |
| Filter.KeepsTypeName | schedule.js:80-84 | on raw strings, an entry is kept exactly when its type is neither `informatica` nor `automotores`, or no name is active, or its type is an active name |
| Filter.ActiveNames | schedule.js:82 | the active set held as type names is empty exactly when the set is, contains the name of every active category and no other string |
| Filter.KeepsMatchesTypeName | schedule.js:80-84 | deciding on the parsed kind agrees with the source's comparisons of the raw type string against the active names |
| Filter.KeepsFilterable | schedule.js:82 | with a non-empty active set, a filterable entry is kept if and only if its category is active |
| Filter.FilterDay | schedule.js:80-84 | the view is no longer than the day and every entry in it passes the filter |
| Filter.FilterMembers | schedule.js:80-84 | an entry is in the view if and only if it is in the day and passes the filter |
| Filter.FilterPrefixStep | schedule.js:80-84 | extending the day by its next entry extends the view by that entry exactly when it passes |
| Filter.KeptIndices | schedule.js:80-84 | the kept positions are in range and strictly increasing, and a position is kept if and only if its entry passes the filter |
| Filter.FilterEmbeds | schedule.js:80-84 | the view is the day read at exactly the kept positions in increasing order: nothing is reordered, repeated or invented |
| Filter.FilterAppend | schedule.js:80-84 | filtering two consecutive stretches of a day is filtering each stretch and concatenating |
| Filter.FilterKeepsAll | schedule.js:80-84 | when every entry passes, the view is the whole day |
| Filter.EmptyShowsAll | schedule.js:82 | the empty active set shows the whole day |
| Filter.AllActiveShowsAll | schedule.js:78-84 | every category active also shows the whole day, the same as the empty set |
| Filter.FilterIdempotent | schedule.js:80-84 | filtering the view again with the same set changes nothing |
| Filter.NonFilterableKept | schedule.js:81-83 | an entry of a non-filterable kind, `receso` included, is kept at its position for every active set |
| Rows.BarColourDistinct | schedule.js:47-97 | the five known kinds have pairwise distinct colours; every unknown kind shares the colour of `other` |
| Rows.Chip | schedule.js:117-120 | a row has no chip exactly when it is `receso`; its chip label is non-empty exactly for the two filterable kinds |
| Rows.ButtonLabel | schedule.js:247 | a filter button reads "Informática" for `informatica` and "Automotor" otherwise, so the two buttons differ |
| Rows.ChipMatchesButton | schedule.js:247 | a filterable row's chip carries the same label as that category's filter button |
| Rows.Delay | schedule.js:102-103 | the delay lies between 2 and 50 hundredths and is either the cap or the uncapped linear value |
| Rows.DelayMonotone | schedule.js:102-103 | a later position never gets a smaller delay |
| Rows.DelaySaturates | schedule.js:102-103 | below position 12 each row starts one step after the previous one; from position 12 on every row gets the cap, and only those do |
| Rows.MakeRow | schedule.js:92-124 | a row carries its entry's time, activity and kind, the bar colour and chip of that kind and the delay of its position; it is marked `receso` exactly when its kind is `receso`, which is exactly when it has no chip |
| Rows.RenderRows | schedule.js:89-131 | one row per kept entry, in view order, numbered by position among the kept entries only; delays never decrease along the list |
| FilterState.Toggle | schedule.js:250 | the clicked category's membership flips and the other category's membership is unchanged |
| FilterState.ToggleTwice | schedule.js:250 | toggling the same category twice restores the set |
| FilterState.ToggleCommutes | schedule.js:250 | toggles of two categories give the same set in either order |
| FilterState.ToggleAll | schedule.js:233-235 | "Todos" gives the empty set exactly when every listed filter type is active, and every category otherwise |
| FilterState.EveryCategoryListed | schedule.js:233 | checking each listed filter type is the same as checking that the set holds every category |
| FilterState.ToggleAllTwice | schedule.js:233-235 | two presses return the all-active set to itself and take any other set to empty |
| FilterState.KnownTypes | schedule.js:179 | a category is collected if and only if its name appears in the stored array |
| FilterState.Restore | schedule.js:171-184 | a missing, unparsable or non-array value reports false and keeps the current set; an array reports true and gives a non-empty set of exactly the named categories, or every category when it names none |
| FilterState.Serialize | schedule.js:165-168 | the saved array names exactly the active categories and only category names |
| FilterState.SaveThenRestore | schedule.js:165-184 | saving a non-empty set and restoring it gives the same set back |
| FilterState.SaveEmptyRestoresAll | schedule.js:181 | saving the empty set and restoring it gives every category |
| FilterState.Step | schedule.js:209-254 | clicking the selected day changes nothing, writes nothing and does not re-render; another day changes only the day and saves it; a category click toggles that category and "Todos" applies the all-or-nothing rule, both changing only the filters and saving them; a day click never changes the filters |
| FilterState.WritesMatchState | schedule.js:165-168 | whatever a click saves restores to the state it leaves behind (with an empty set read back as every category) |
| FilterState.CategoryClickTwice | schedule.js:249-254 | clicking the same category button twice returns to the starting state |
| Counter.VisibleCount | schedule.js:287 | the count is the row count minus the header, and zero when there are no rows |
| Counter.CountUnderHeader | schedule.js:285-287 | under a header row, the count is the number of rows below it |
| Counter.Decimal | schedule.js:288 | the count prints as a non-empty string of decimal digits without a leading zero |
| Counter.DecimalRoundTrip | schedule.js:288 | reading the printed count back gives the count |
| Counter.CounterText | schedule.js:288 | the text is the count followed by " actividad" exactly when the count is one, and by " actividades" otherwise |
| Counter.CounterTextExamples | schedule.js:288 | 0, 1, 2 and 5 read "0 actividades", "1 actividad", "2 actividades" and "5 actividades" |
| Counter.CounterTextInjective | schedule.js:288 | different counts never show the same text |
| View.NoFiltersShowsAll | schedule.js:78-84 | rendering with no filter argument shows the whole day, the same as rendering with the empty set |
| View.Visible | schedule.js:76-84 | a state whose day is absent shows nothing; otherwise it shows at most the day's entries, each passing the state's filter |
| View.RenderSchedule | schedule.js:61-155 | the rows are rebuilt one per kept entry of the selected day, in order; the counter text matches the number of rows; a missing day renders no rows and "0 actividades" |
| View.TodosShowsWholeDay | schedule.js:232-238 | after "Todos", whatever was active before, the whole selected day is shown |
| View.DayClickKeepsFilter | schedule.js:209-216 | a day click shows the new day under the unchanged active set |
| View.ScenarioStore | schedule.js:27-33 | a fetched object with two entries under day 13 loads them in order under 13 and nothing under 14 |
| View.ScenarioInitialView | schedule.js:161 | in the initial state, one `informatica` and one `receso` entry both show |
| View.ScenarioToggleView | schedule.js:250 | switching `informatica` off leaves only the `receso` entry |
| View.ScenarioOtherDayView | schedule.js:209-215 | moving on to day 14, which has no data, shows nothing |
| View.TwoDayScenario | schedule.js:294-309 | the counter reads "2 actividades" at start, "1 actividad" after switching `informatica` off, and "0 actividades" on the empty day 14 |

## Left out

- The network fetch, `res.json()` and the log messages (schedule.js:21-42). These are I/O. The model starts from the fetch outcome, already decoded.
- Converting day keys from strings to numbers (schedule.js:30). Keys are integers in the model. Two keys that convert to the same number, or a key that converts to NaN, are not modelled.
- Elements of a day array that are not entry objects, and entry fields that are not strings. The model's raw entries always carry three strings.
- Elements of a stored filter array that are not strings. They can never name a category, so leaving them out changes no restored set.
- `localStorage` reads and writes (schedule.js:58-59, 165-173). These are I/O. A save is modelled as a `Write` value, and a restore starts from the already-parsed stored value. Failures of storage are swallowed by the source, so they have no modelled effect.
- `loadSelectedDay` (schedule.js:59). It reads a stored string and converts it with `Number`, which can give NaN. This is I/O plus a conversion the model does not have.
- The order of names in a saved filter array. The source saves in insertion order. The model saves a fixed order. Only set membership is read back, so the order has no effect.
- `renderFilters`, `updateDayUI`, `updateFiltersUI`, the header row and the `innerHTML` / element construction in `renderSchedule`. These are DOM only. The counter takes the row count as an integer instead of querying the DOM.
- The IntersectionObserver one-shot visibility trigger and its immediate fallback (schedule.js:136-152). These are asynchronous browser callbacks.
- The parallax layer, the particle canvas and the click ripple (schedule.js:312-422). These are decorative and driven by floating point and animation frames.
- Rows.Delay: the source computes the delay in floating point and formats it with `toFixed(2)`. The model uses exact hundredths, `min(4*i + 2, 50)`. This is the value the formatted string denotes.
- Rows.BarColour: the gradient strings are opaque tokens. The lookup `typeColors[item.type]` also finds inherited object properties. A type named `constructor` or `toString`, for example, would get a function instead of a gradient. The model looks up only the five own keys.
- The CSS classes `type-<name>` and `receso` on a row, and the chip's inline colours. These are presentation only. The row records its kind and whether it is `receso`.
