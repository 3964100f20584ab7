# Doctor listing: the query-state model

This project models the query-state core of a single-page doctor listing. The page fetches
the doctor dataset once. A search box filters that list by name and offers up to three
suggestions. A filter panel holds a consult mode ("Video Consult" / "In Clinic"), a set of
specialty checkboxes and a sort order (fees low to high, experience high to low). Both write
the shown list (`filteredDoctors`), and both keep their state in the URL's search
parameters (`search`, `consultType`, repeated `specialty`, `sortBy`), so a shared link
reproduces the filters.

The repository holds the same logic twice. `src/App.js` is the one the page renders.
`src/components/AutocompleteSearch.js` is an exact copy of the search box, and
`src/components/FilterPanel.js` a copy of the filter panel that adds debug logging (lines
11-17 and 80). The table cites `src/App.js`. The copies' lines are:

- `AutocompleteSearch.js` 11-18, 20-31, 33-38, 40-53, 55-65 and 67-80 are `App.js` 13-20,
  22-33, 35-40, 42-55, 57-67 and 69-82.
- `FilterPanel.js` 7-9, 30-40, 42-91, 93-117 and 119-135 are `App.js` 117-119, 132-142,
  144-191, 193-217 and 219-235.

Modules, one per part of the program:

- `Wrappers`: `Option`, standing in for JavaScript's `null`.
- `Seqs`: `Array.prototype.filter` and the subsequence relation, with their laws.
- `Text`: `trim`, ASCII `toLowerCase`, `includes`, and the numeric key
  `parseInt(String(x).replace(/[^\d]/g, '')) || 0`.
- `SearchParams`: the `URLSearchParams` store, as a class over its ordered list of pairs.
  It follows `get`, `getAll`, `append`, `delete` and `set` of section 6.2 of the WHATWG URL
  Standard.
- `Doctors`: the doctor record and the card's two display rules.
- `Sorting`: `Array.prototype.sort` with a comparator, which is stable. A functional
  insertion sort specifies it, and an insertion sort in place on an array refines it.
- `Pipeline`: `applyFilters`, with its two filters and the fees and experience comparators.
  The visible list is copied into an array and sorted in place.
- `Search`: `filterDoctors` and the suggestion list.
- `Reducers`: the three toggles.
- `UrlSync`: `updateUrlParams`, the initial reads, and the round trip between them.
- `Controller`: the class `QueryController`. It holds the search text, the filter state,
  the visible list and the shared store. Each handler is one atomic transition: the state
  update, the effects it triggers, the derivation and the store write.

The effects are modelled as React runs them:

- The consult and sort effects run only when the value actually changed.
- A specialty toggle always builds a new array, so its effect always runs.
- On mount, the search box's URL effect runs before the filter panel's. With a non-empty
  dataset the panel's `applyFilters` therefore writes last, and the shown list is the
  filter result.

Some behaviours of the code that a reader might not expect, all modelled as written:

- The search text is not kept in step with the store. Typed text is stored only on Enter
  or on a suggestion click. A non-empty dataset's mount ignores `search` for the shown list.
  So `QueryController.Valid` covers the consult mode, the specialties and the sort only.
- An unrecognised `consultType` value is not ignored: it filters as "In Clinic" does
  (`Pipeline.UnknownModeActsAsInClinic`).
- A specialty that no doctor has hides every doctor (`Pipeline.UnmatchedSelectionHidesAll`).
- Enter filters by the untrimmed text. A text of spaces therefore shows only names that
  contain those spaces, although typing it showed every doctor.

## Model

| member | source | states |
|---|---|---|
| `SearchParams.ParamStore.Get` | src/App.js:117 | `get(name)` is the value of the first pair with that name, or null |
| `SearchParams.ParamStore.GetAll` | src/App.js:118 | `getAll(name)` is every value of that name, in pair order |
| `SearchParams.ParamStore.Append` | src/App.js:204-206 | `append` adds one pair at the end and changes nothing else |
| `SearchParams.ParamStore.Delete` | src/App.js:203 | `delete` leaves exactly the pairs of other names, in order |
| `SearchParams.ParamStore.Set` | src/App.js:196-200 | `set` replaces the first pair of the name, drops the later ones, or appends when there is none |
| `SearchParams.LookupIsFirstValue` | src/App.js:117-119 | `get` is null exactly when `getAll` is empty, and is otherwise its first value |
| `SearchParams.ValuesOfWithout` | src/App.js:199 | after `delete(n)`, `getAll(n)` is empty and every other name keeps its values |
| `SearchParams.ValuesOfReplaced` | src/App.js:197 | after `set(n, v)`, `getAll(n)` is `[v]` and every other name keeps its values |
| `SearchParams.ValuesOfAppended` | src/App.js:205 | after `append(n, v)`, `v` is the last value of `n` and other names keep theirs |
| `SearchParams.ReplacedKeepsOthers` | src/App.js:197 | `set` leaves the pairs of other names in place, in their relative order |
| `SearchParams.WithoutTwice` | src/App.js:203 | `delete` is idempotent |
| `UrlSync.ReadText` | src/App.js:117 | `get(name) \|\| ''` is the first value `getAll(name)` lists, or the empty string when it lists none |
| `UrlSync.SpecialtyPairs` | src/App.js:204-206 | the `forEach` appends one `specialty` pair per selected name, in selection order; `getAll('specialty')` of them is the selection and every other name has no value in them |
| `SearchParams.ValuesOfCons` | src/App.js:118 | a pair in front of the list adds its value to `getAll` of its own name and to no other |
| `UrlSync.SerializedValues` | src/App.js:193-217 | after `updateUrlParams`: `consultType` and `sortBy` hold the state's value, or nothing when it is empty; `specialty` holds the selection; other names are unchanged |
| `UrlSync.RoundTrip` | src/App.js:117-119 | reading a serialized store back gives the same consult mode, specialties and sort |
| `UrlSync.SerializedKeepsOtherKeys` | src/App.js:193-217 | `updateUrlParams` does not change `get` or `getAll` of any other name, `search` included |
| `UrlSync.SerializedTwice` | src/App.js:136-142 | a second sync of the same state changes no `getAll` answer |
| `UrlSync.SerializedTwiceReorders` | src/App.js:196-206 | a second sync can still reorder the pairs, so the store is stable only up to order |
| `UrlSync.SearchWritesKeepFilterState` | src/App.js:49-52 | the search box's `delete('search')` and `set('search', v)` leave the filter state in the store unchanged |
| `UrlSync.SearchWriteReadsBack` | src/App.js:63-66 | after `set('search', v)` the store answers `v`; after `delete('search')` it answers `''` |
| `UrlSync.UpdateUrlParams` | src/App.js:193-217 | the set/delete/forEach-append sequence on the store leaves exactly the serialized state |
| `Reducers.Toggle` | src/App.js:219-221 | the new mode is empty or the choice; it is empty exactly when the choice was already active or empty |
| `Reducers.ToggleTwice` | src/App.js:233-235 | choosing the same option twice restores the old value exactly when that was empty or the option |
| `Reducers.Removed` | src/App.js:226 | `prev.filter(s => s !== specialty)` removes every copy of the specialty |
| `Reducers.ToggleSpecialty` | src/App.js:223-231 | afterwards the specialty is selected exactly when it was not before |
| `Reducers.ToggleSpecialtyShape` | src/App.js:225-229 | a selected specialty loses every copy; an unselected one is appended once |
| `Reducers.ToggleSpecialtyKeepsOthers` | src/App.js:223-231 | every other specialty keeps its copies and its relative order |
| `Reducers.ToggleSpecialtyNoDuplicates` | src/App.js:223-231 | a selection without duplicates stays without duplicates |
| `Reducers.ToggleSpecialtyTwice` | src/App.js:223-231 | toggling an unselected specialty twice restores the list; a selected one ends up once, at the end |
| `Text.TrimStart` | src/App.js:23 | the result is a suffix that does not start with white space or a line terminator, and everything removed is white space |
| `Text.TrimEnd` | src/App.js:23 | the result is a prefix that does not end with white space or a line terminator, and everything removed is white space |
| `Text.TrimIsInnerSlice` | src/App.js:23 | `trim()` is a contiguous slice of the input with no space at either end, and both cut-off ends are all white space |
| `Text.BlankIffAllSpace` | src/App.js:47 | `value.trim() === ''` holds exactly when every character is white space or a line terminator |
| `Text.Lower` | src/App.js:29 | `toLowerCase` keeps the length and maps each character to its ASCII lower case |
| `Text.LowerIdempotent` | src/App.js:29 | lower-casing twice is lower-casing once |
| `Text.ContainsIffOccurs` | src/App.js:29 | `includes` holds exactly when the needle occurs at some position |
| `Text.ContainsEmpty` | src/App.js:37 | every text includes the empty text |
| `Text.Digits` | src/App.js:177 | `replace(/[^\d]/g, '')` leaves only digits and never lengthens the text |
| `Text.DigitsConcat` | src/App.js:177 | the digits of a concatenation are the digits of each part, in order |
| `Text.DigitsOfDigits` | src/App.js:177 | a text of digits alone is left as it is |
| `Text.KeyOfDecimal` | src/App.js:177 | the key of the decimal digits of `n` is `n`; this is the key of `String(n)` for an integer `n` with 0 <= n < 10^21 |
| `Text.KeyIgnoresNonDigits` | src/App.js:177 | a prefix without digits, such as a currency sign, does not change the key |
| `Text.NoDigits` | src/App.js:177 | a text without digits keeps no digits and has key 0, the `\|\| 0` fallback |
| `Doctors.DisplayFees` | src/App.js:319-322 | the shown fee carries a rupee sign; it is the fee itself when it already has one, and the sign plus the fee otherwise |
| `Doctors.DisplayFeesSigns` | src/App.js:318-322 | exactly one sign is added, and only when there was none; the sort key is unchanged; the rule is idempotent |
| `Doctors.RupeeNormalisationExample` | src/App.js:318-322 | `500` and `₹500` both sort as 500 and both display as `₹500` |
| `Doctors.JoinSnoc` | src/App.js:313 | `join(', ')` of one more name adds a separator and the name |
| `Doctors.DisplaySpecialties` | src/App.js:310-316 | an empty array and anything that is neither array nor string show nothing; an array of one name and a string show that name |
| `Doctors.DisplaySpecialtiesSnoc` | src/App.js:312-313 | an array with one more name shows the old text, then `, `, then the name: with the cases above, an array is joined with `, ` |
| `Pipeline.ConsultFilterKeeps` | src/App.js:149-154 | an empty mode keeps everyone; otherwise "Video Consult" keeps exactly the video doctors and any other mode exactly the others, in dataset order |
| `Pipeline.UnknownModeActsAsInClinic` | src/App.js:150-153 | a mode other than the two offered filters exactly as "In Clinic" |
| `Pipeline.SpecialtyFilterKeeps` | src/App.js:156-168 | an empty selection keeps everyone; otherwise a doctor stays exactly when its array shares a selected name or its non-empty string is selected |
| `Pipeline.UnmatchedSelectionHidesAll` | src/App.js:157-167 | a selection that matches no doctor's field hides every doctor |
| `Pipeline.SpecialtyOrExample` | src/App.js:162 | the specialty filter is an OR over the selected names |
| `Pipeline.ComparatorOrders` | src/App.js:173-187 | the fees comparator orders by the fee key and the experience comparator by the reversed experience key; a positive answer never ties two equal keys |
| `Sorting.Insert` | src/App.js:175-187 | one insertion step of the stable sort grows the list by one |
| `Sorting.InsertMultiset` | src/App.js:175-187 | an insertion adds exactly the inserted element |
| `Sorting.InsertSorted` | src/App.js:175-187 | inserting into a list sorted by the comparator gives a sorted list |
| `Sorting.InsertStable` | src/App.js:175-187 | inserting keeps the relative order of equal keys, with the new element last among them |
| `Sorting.StableSortCorrect` | src/App.js:170-188 | the stable sort is a permutation, sorted by the comparator, and keeps the input order among equal keys |
| `Sorting.InsertAt` | src/App.js:175-187 | the element goes right after the last element the comparator does not put after it |
| `Sorting.SortFour` | src/App.js:175-187 | a four-element sort with given comparator answers moves each element past exactly the ones that sort after it |
| `Pipeline.SortByFeesCorrect` | src/App.js:173-180 | sorting by fees permutes the list into non-decreasing fee keys, equal keys in input order |
| `Pipeline.SortByExperienceCorrect` | src/App.js:181-187 | sorting by experience permutes the list into non-increasing experience keys, equal keys in input order |
| `Pipeline.DeriveCorrect` | src/App.js:144-191 | the shown list is a permutation of the filtered doctors: by "fees" non-decreasing, by "experience" non-increasing, stable in both; any other `sortBy` keeps the filtered order |
| `Pipeline.FeeSortExample` | src/App.js:173-180 | fees 300, 100, 300, 200 sort to 100, 200, 300, 300, with the two 300s in input order |
| `Sorting.InsertInPlace` | src/App.js:175-180 | shifting the sorted prefix of the array right past every element the comparator puts after `a[i]` performs one insertion step in place |
| `Sorting.SortInPlace` | src/App.js:171-188 | sorting the copied array in place leaves the stable sort of its old contents |
| `Pipeline.ApplyFilters` | src/App.js:144-191 | publishes nothing for an empty dataset; otherwise publishes the filtered and sorted list |
| `Search.FilterDoctors` | src/App.js:35-40 | every doctor kept has a name containing the term, ignoring case |
| `Search.FilterDoctorsKeeps` | src/App.js:35-40 | exactly the matching doctors are kept, every copy of each, in dataset order |
| `Search.FilterDoctorsEmptyTerm` | src/App.js:35-40 | the empty term keeps the whole dataset |
| `Search.FilterDoctorsIgnoresTermCase` | src/App.js:37 | lower-casing the term first does not change the result: the match ignores the term's case |
| `Search.Suggestions` | src/App.js:22-33 | at most three suggestions: none for a blank term, otherwise the first `min(3, matches)` name matches, in dataset order |
| `Search.SuggestionsInDatasetOrder` | src/App.js:28-30 | the suggestions are a subsequence of the dataset, and each one matches |
| `Search.SuggestionsWhenAllMatch` | src/App.js:28-30 | when every doctor matches, the suggestions are the first three doctors |
| `Controller.QueryController.Mount` | src/App.js:13-20 | component state comes from the store; with a non-empty dataset the shown list is the filter result and the store holds the serialized filter state |
| `Controller.QueryController.FilterStateChanged` | src/App.js:136-142 | with a non-empty dataset, derive the shown list and serialize the state; otherwise change nothing |
| `Controller.QueryController.ToggleConsultType` | src/App.js:219-221 | toggles the mode; re-filters and re-syncs only when the mode changed; keeps the store in step |
| `Controller.QueryController.ToggleSortBy` | src/App.js:233-235 | toggles the sort; re-sorts and re-syncs only when the sort changed; keeps the store in step |
| `Controller.QueryController.ToggleSpecialty` | src/App.js:223-231 | toggles the specialty; always re-filters and re-syncs; keeps the store in step |
| `Controller.QueryController.HandleInputChange` | src/App.js:42-55 | the text always changes, and the suggestions are those of the new text (none when it is blank); a blank text deletes `search` and shows the whole dataset; anything else leaves list and store alone |
| `Controller.QueryController.HandleSuggestionClick` | src/App.js:57-67 | the name becomes the text, the shown list is the name filter, and `search` reads back as the name |
| `Controller.QueryController.HandleKeyDown` | src/App.js:69-82 | Enter shows the name filter of the current text and stores a non-blank text; other keys do nothing |
| `Controller.ReloadReproducesFilters` | src/App.js:117-119 | after mounting and toggling a specialty, a sort and the consult mode, mounting afresh on the same store gives the same filter state and the same shown list |

## Left out

- Fetching the dataset, the loading and error screens, and `console.log` calls are left
  out. The dataset is a parameter of `QueryController.Mount`, and a failed fetch leaves no
  page to model.
- Rendering is left out: the JSX, the CSS, the specialty checkbox list, image fallbacks and
  the suggestion list's visibility (`showSuggestions`, focus and blur timers). They do not
  affect the query state.
- The router is left out. Both components share one `ParamStore`, and a write to it is not
  an event that re-runs any initial read.
- React's scheduling is left out. Each handler with its effects is one atomic transition,
  ordered as React orders them. The batching of state updates within one effect run is not
  modelled.
- `Text.Lower`: maps ASCII letters only. Unicode case mapping is not modelled.
- `Text.NumericKey`: `parseInt` of the digits is modelled as exact unbounded integer
  arithmetic. The precision loss of very long digit strings in floating point is not
  modelled.
- `Doctors.DisplaySpecialties`: the fallbacks `doctor.specialty` and `doctor.specialties`,
  used when `speciality` is falsy, are not modelled. Neither is a truthy non-array,
  non-string value shown as it is. The model shows nothing for such values.
- `Doctors.Doctor`: `fees` and `experience` are the strings `String(x)` gives.
  `videoConsult` is taken as a boolean. Other truthy or falsy values are not modelled.
- `src/components/DoctorCard.js` is not part of this model: the page does not render it.
- `Text.KeyOfDecimal`: speaks of the decimal digits of `n`, which are `String(n)` only below
  10^21. From 10^21 on, `String(n)` is in exponent notation (`String(10 ** 21)` is
  `"1e+21"`, with key 121), and such numbers are not exact in floating point anyway.
- `Controller.ReloadReproducesFilters`: shows the round trip for one fixed sequence of
  handlers. For other sequences it rests on every handler keeping `Valid()` and on `Mount`
  reading its state from the store.
- `UrlSync.SerializedTwice`: states equality of every `getAll` answer, not of the pair
  list, because a second sync can reorder the pairs (`UrlSync.SerializedTwiceReorders`).
