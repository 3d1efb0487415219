# Trip store of the travel planner home screen

The home screen of the travel planner keeps a list of trips. Each trip has:

- an id, a name and dates;
- a budget and what has been spent so far;
- an itinerary of entries;
- a packing checklist of items that are ticked off.

The screen also keeps the id of the selected trip and the id of the trip being edited, if any. One handler exists per user action:

- save a new trip or an edited one;
- start editing a trip;
- delete a trip;
- add an itinerary entry;
- add a packing item;
- toggle a packing item;
- add an expense;
- set the budget.

The handlers differ in how they validate their input:

- Saving a trip, adding an itinerary entry and adding a packing item trim the typed text and ignore it when it is blank.
- Adding an expense and setting the budget parse an amount with `Number()`. They ignore NaN, and they ignore an expense `<= 0` or a budget `< 0`.
- Adding an itinerary entry, a packing item or an expense, toggling an item and setting the budget also do nothing when there is no current trip.
- Starting an edit, selecting a trip, deleting a trip and toggling a packing item validate no text.

What each handler then changes:

- An accepted save, append, toggle, expense or budget replaces the list:
  - by a prepend, when a new trip is saved;
  - otherwise by a `map` that changes only the trip with one id.
- A delete replaces the list by a `filter` and repairs the selection.
- Starting an edit changes only the selection and the edit mode, and loads the trip's texts into the inputs.

The model is split into four modules:

- `Wrappers` (`wrappers.dfy`): `Option`. `None` stands for `null`, and for NaN where an amount is parsed.
- `Text` (`text.dfy`): JavaScript's `String.prototype.trim` over the ECMAScript whitespace and line-terminator characters, with its characterisation:
  - trimming removes only blank text at the two ends;
  - it yields the empty string exactly for blank input;
  - it is idempotent;
  - it ignores padding.
- `Trips` (`trips.dfy`):
  - the trip records and the starter trips;
  - the pure list transformations the handlers apply:
    - `UpdateWhere`, the per-trip `map` with an id test, which carries a `Change`;
    - `Without`, the delete `filter`;
    - `FlipMatching`, the nested packing `map`;
    - `NewTrip`;
  - the lookup of the current trip;
  - the derived remaining budget and packing-ready count;
  - the store invariant `ValidStore`, and the lemmas showing that each transformation keeps it.
- `TripStore` (`store.dfy`): class `Store`, with fields `trips`, `selected` and `editing`, and one method per handler. Each method states its new state in terms of the `Trips` functions and keeps `Valid()`. A few scenario methods call the handlers on the starter trips and assert the outcome.

The store invariant requires that:

- ids are non-empty and unique;
- names, itinerary entries and packing captions are non-empty and trimmed;
- dates are trimmed;
- `budget` and `spent` are non-negative;
- a trip is selected exactly when there are trips, and the selection names one of them;
- an edit in progress names an existing trip.

## Model

| member | source | states |
|---|---|---|
| Text.Trim | screens/HomeScreen.js:65 | `trim` leaves no whitespace at either end and never lengthens the text |
| Text.TrimStartSplit | screens/HomeScreen.js:65 | the leading part `trim` removes is blank, and what remains starts with non-whitespace |
| Text.TrimEndSplit | screens/HomeScreen.js:65 | the trailing part `trim` removes is blank, and what remains ends with non-whitespace |
| Text.TrimSplit | screens/HomeScreen.js:65 | the input is blank text, then the trim, then blank text: `trim` removes nothing else |
| Text.TrimEmptyIffBlank | screens/HomeScreen.js:65 | `!tripName.trim()` holds exactly when the input is whitespace only (both directions) |
| Text.TrimFixedIff | screens/HomeScreen.js:65 | `trim` leaves a string unchanged exactly when it has no whitespace at either end |
| Text.TrimIdempotent | screens/HomeScreen.js:65 | trimming an already trimmed value changes nothing |
| Text.TrimStartSkipsBlank | screens/HomeScreen.js:65 | blank text in front of text that starts with non-whitespace is exactly what the front trim removes |
| Text.TrimEndSkipsBlank | screens/HomeScreen.js:65 | blank text after text that ends with non-whitespace is exactly what the back trim removes |
| Text.TrimOfPadded | screens/HomeScreen.js:65 | the trim of blank + middle + blank, where the middle has no whitespace at its ends, is the middle |
| Text.TrimIgnoresPadding | screens/HomeScreen.js:65 | surrounding any input with whitespace does not change its trim |
| Trips.SeedTrips | screens/HomeScreen.js:5-32 | there are exactly two starter trips, and their ids are "1" and "2". The body is the literal with its names, dates, amounts, itineraries and checklists. Their validity is stated by `LisbonWellFormed`, `KyotoWellFormed` and `SeedIsValid` |
| Trips.Apply | screens/HomeScreen.js:72 | the object spread of each handler keeps the id. Each change touches only its own fields: a rename sets name and dates to the given values; an added stop appends the entry to the itinerary; an added item appends it unpacked; a toggle replaces the checklist by the flipped one; an expense adds its amount to `spent`; a budget change sets `budget` to the amount, not adding to it. The spreads are at lines 72, 129, 145, 161-166, 184 and 201 |
| Trips.RepairSelection | screens/HomeScreen.js:113-115 | when the deleted trip was not selected, the selection is kept. When it was, the selection becomes the first remaining trip's id, or none exactly when nothing remains. It never names an id the remaining list no longer carries |
| Trips.NewTrip | screens/HomeScreen.js:78-86 | the new trip has the given id and the trimmed name. Its dates are the trimmed dates, or `Dates TBD` when they trim to empty, so they are never empty. It has zero budget and spent and empty itinerary and checklist, and it is well-formed when the id is non-empty and the name is not blank |
| Trips.FindById | screens/HomeScreen.js:59 | `find` yields a trip exactly when the id is present, and then the first listed trip with that id |
| Trips.CurrentTrip | screens/HomeScreen.js:58-61 | `selectedTrip` exists exactly when there are trips; it is the selected trip when the selection names one, else `trips[0]` |
| Trips.FlipMatching | screens/HomeScreen.js:163-165 | the packing `map` keeps length and captions and flips `done` exactly on the items with the given caption |
| Trips.UpdateWhere | screens/HomeScreen.js:70-73 | the per-trip `map` keeps length and order, applies the change to every trip with the id, and leaves every other trip as it was |
| Trips.Without | screens/HomeScreen.js:112 | the `filter` keeps exactly the trips whose id differs from the deleted id, and never grows the list |
| Trips.Remaining | screens/HomeScreen.js:325 | `max(budget - spent, 0)` is non-negative, is at least `budget - spent`, is either 0 or `budget - spent`, and is 0 exactly when `spent >= budget` |
| Trips.ReadyCount | screens/HomeScreen.js:366 | the number of packed items is at most the checklist length; it equals the length exactly when all items are packed, and is 0 exactly when none is. A one-item checklist counts 1 exactly when that item is packed |
| Trips.UpdateTouchesOne | screens/HomeScreen.js:126-132 | with unique ids, a handler's `map` changes exactly one position, the current trip's, and leaves every other trip unchanged |
| Trips.ApplyKeepsWellFormed | screens/HomeScreen.js:121-203 | an accepted change keeps the trip's id and its well-formedness: trimmed non-empty texts, non-negative amounts |
| Trips.UpdateKeepsIds | screens/HomeScreen.js:70-73 | the per-trip `map` keeps the set of ids |
| Trips.UpdateKeepsValid | screens/HomeScreen.js:69-203 | for the `map`-based handlers (the edit at lines 69-75 and the handlers at 121-203), editing, appending, toggling, spending or setting the budget of the trips with one id keeps the store invariant |
| Trips.CreateKeepsValid | screens/HomeScreen.js:76-88 | prepending the new trip, built with a fresh id, a non-blank name and zero amounts, and selecting it keeps the store invariant |
| Trips.DeleteKeepsValid | screens/HomeScreen.js:104-117 | the delete with selection repair and edit cancellation keeps the store invariant, so the selection still names an existing trip or is none |
| Trips.WithoutIds | screens/HomeScreen.js:112 | after the delete, the set of ids is the old one without the deleted id |
| Trips.UniqueCons | screens/HomeScreen.js:87 | a prepended trip keeps ids unique exactly when its id is new and the rest were unique (both directions) |
| Trips.WithoutKeepsUnique | screens/HomeScreen.js:112 | the `filter` keeps ids unique |
| Trips.WithoutAppend | screens/HomeScreen.js:112 | the `filter` keeps the remaining trips in their relative order: filtering a concatenation filters each part |
| Trips.WithoutAbsent | screens/HomeScreen.js:112 | deleting an id that no trip carries changes nothing |
| Trips.ToggleTwice | screens/HomeScreen.js:158-169 | toggling the same caption twice on the same trip restores the whole list of trips |
| Trips.FlipTwice | screens/HomeScreen.js:163-165 | flipping the items of one caption twice restores the checklist |
| Trips.SpentNeverDecreases | screens/HomeScreen.js:182-186 | an accepted expense raises the current trip's `spent` by exactly its amount; no other change touches `spent`, so it never decreases |
| Trips.ReadyCountAppend | screens/HomeScreen.js:366 | the count of a concatenation is the sum of the counts of its parts. With the one-item case, this fixes the count as the number of packed items, as `filter(done).length` gives |
| Trips.ReadyCountAppendUnpacked | screens/HomeScreen.js:145 | a packing item added unpacked leaves the ready count as it was while the total grows by one |
| Trips.LisbonTexts | screens/HomeScreen.js:6-18 | the texts of the first starter trip are trimmed, and all but the dates are non-empty |
| Trips.KyotoTexts | screens/HomeScreen.js:19-31 | the texts of the second starter trip are trimmed, and all but the dates are non-empty |
| Trips.LisbonWellFormed | screens/HomeScreen.js:6-18 | the first starter trip is well-formed |
| Trips.KyotoWellFormed | screens/HomeScreen.js:19-31 | the second starter trip is well-formed |
| Trips.SeedIsValid | screens/HomeScreen.js:5-32 | the starter trips with the first one selected and no edit form a valid store |
| TripStore.Store.constructor | screens/HomeScreen.js:42-43 | the store starts with the starter trips, the first trip selected and no edit, and is valid |
| TripStore.Store.Current | screens/HomeScreen.js:58-61 | in a valid store the current trip exists exactly when a trip is selected, and is that trip |
| TripStore.Store.SaveTrip | screens/HomeScreen.js:64-93 | a blank name changes nothing; otherwise either the edited trip gets the trimmed name and dates, with the selection kept and the edit ended, or a new trip is prepended and selected; the input is cleared exactly when the name is not blank; the invariant is kept |
| TripStore.Store.EditTrip | screens/HomeScreen.js:96-101 | loads the trip's name and dates into the inputs and marks it both edited and selected; trips are unchanged |
| TripStore.Store.SelectTrip | screens/HomeScreen.js:262 | tapping a listed trip selects it and changes nothing else |
| TripStore.Store.DeleteTrip | screens/HomeScreen.js:104-118 | the trips become the filtered list; the selection moves to the first remaining trip, or to none, exactly when the deleted trip was selected; an edit of it is cancelled and the inputs are cleared |
| TripStore.Store.AddItinerary | screens/HomeScreen.js:121-134 | accepted exactly when the entry is not blank and a trip exists; then the trimmed entry is appended to the current trip only, else nothing changes |
| TripStore.Store.AddPacking | screens/HomeScreen.js:137-150 | accepted exactly when the caption is not blank and a trip exists; then an unpacked item with the trimmed caption is appended to the current trip only, else nothing changes |
| TripStore.Store.TogglePacking | screens/HomeScreen.js:153-170 | with a current trip, flips the items with that caption on that trip only; with no trip, nothing changes |
| TripStore.Store.AddExpense | screens/HomeScreen.js:173-188 | NaN, zero and negative amounts, or no trip, change nothing; otherwise the amount is added to the current trip's `spent` only |
| TripStore.Store.UpdateBudget | screens/HomeScreen.js:191-203 | NaN and negative amounts, or no trip, change nothing; otherwise the current trip's budget is replaced by the amount |
| TripStore.PortoInput | screens/HomeScreen.js:76-88 | a padded name with a clock id absent from the starter trips is not blank and trims to the bare name |

## Left out

- Rendering (JSX) and the style sheet: they are presentation and have no behaviour.
- The fallback between props owned by a parent and the screen's own state (screens/HomeScreen.js:41-47): one owned store is modelled.
- Navigation to the trips list (`goToTrips`, screens/HomeScreen.js:205-209).
- screens/TripsScreen.js and App.js are not part of this model: one renders a list and the other mounts the screen; neither holds logic.
- The `Date.now().toString()` id (screens/HomeScreen.js:77) is a clock read. `SaveTrip` takes it as the parameter `freshId`.
- TripStore.Store.SaveTrip: requires `freshId` to be non-empty and absent from the trips. The clock gives no such guarantee, so two saves within one millisecond would collide in the app.
- The parsing done by `Number()` and floating-point arithmetic (screens/HomeScreen.js:177, 195). Amounts arrive already parsed as `Option<real>`, with `None` for NaN, and add exactly.
- Quirks of that parsing are not modelled:
  - `Number("")` is 0;
  - `Infinity` passes the NaN test;
  - rounding error in `spent`.
- React's asynchronous batching of state updates, and the delete updater's read of `selectedTripId` from the enclosing render (screens/HomeScreen.js:113). Each handler is one atomic step on the current state.
- The transient text fields (`tripName`, `tripDates`, `itineraryEntry`, `packingEntry`, `expense`):
  - their values are method arguments;
  - a returned `accepted`/`formCleared` says whether the source clears them;
  - `EditTrip` returns the values it loads into them.
- The packing item's `label` field is named `caption`, because `label` is a reserved word in Dafny.
- TripStore.Store.EditTrip: requires that the trip is one of the listed trips. The screen only offers edit buttons on listed trips.
- TripStore.Store.SelectTrip: requires that the id is listed. The screen only offers a tap target on listed trips.
- The `trips.dates || 'Dates TBD'` fallback while rendering (screens/HomeScreen.js:267) is presentation. An edit may store empty dates, and the model keeps them empty.
