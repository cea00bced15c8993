# BikeRides ride directory — a Dafny model

This project models the ride directory at the heart of the BikeRides prototype page. In that single-user, browser-only app, people list group bike rides, filter them by text, bike type, pace and distance from a map centre, join or leave them, and chat on each ride. The whole state is one store value `{rides}`. The model covers:

- **Store updaters** (module `RideStore`). `createRide`, `joinRide`, `leaveRide` and `addMessage` are pure functions from store to store. Each changes only the ride whose id matches.
- **Input guards** (module `RideForms`). The create-ride form refuses a ride with no title, no date or no time. The chat form drops a message that trims to nothing.
- **Query pipeline** (module `RideQuery`). The listing keeps the rides that pass four filters, stably sorted by start time. The map pins are a projection of that listing.
- **Start-up state** (module `Directory`). The saved snapshot is used when it can be read; otherwise the store holds two example rides.

Generic pieces live in their own modules. `Seqs` holds `Array.prototype.filter` and subsequences. `StableSort` holds `Array.prototype.sort` with a numeric comparator, which is stable since ECMAScript 2019. `Wrappers` holds `Option` and `Result`.

Inputs the model takes as parameters, because the behaviour proved does not depend on them:

- `dist`: the haversine great-circle distance in km.
- `lower`: `String.prototype.toLowerCase`.
- `toInstant`: parsing the form's date and time into an instant.
- `parse`: JSON parsing of the saved snapshot.
- Generated ids (`uid()`) and the current instant.
- `me`: the acting user. The page always passes the mock user `Rides.CurrentUser` ("u_demo", "Ciclista Demo").

Times are integers in milliseconds.

Behaviour worth noting:

- Join, leave and post on an unknown ride id leave the store unchanged. No error is reported.
- A refused ride form only shows an alert. The model returns `Err(MissingTitleOrSchedule)` and leaves the store as it was.
- A blank chat message is dropped in the chat form, silently, before `addMessage` is called. `addMessage` itself accepts any body.
- Bike type and pace are the form's Italian option labels, stored as strings. The sentinels that switch those filters off are `"Tutte"` and `"Tutti i ritmi"`.
- A title is refused only when it is empty. A title of only spaces is accepted.

## Model

| member | source | states |
|---|---|---|
| RideStore.Join | bikerides-mvp-nextjs/app/prototype/BikeRidesPrototype.tsx:421 | After joining, the user is listed. The list is unchanged exactly when the user was already there; otherwise one going entry for the user is appended at the end. Unique user ids stay unique. |
| RideStore.Leave | bikerides-mvp-nextjs/app/prototype/BikeRidesPrototype.tsx:422 | After leaving, the user is absent. A list without the user is unchanged. |
| RideStore.LeaveIsSubsequence | bikerides-mvp-nextjs/app/prototype/BikeRidesPrototype.tsx:422 | Leaving only deletes entries, so the survivors keep their relative order. |
| RideStore.LeaveIsFilter | bikerides-mvp-nextjs/app/prototype/BikeRidesPrototype.tsx:422 | Leaving equals filtering the list with "user id differs from the leaver's". So it has the filter's exact membership and multiplicity (`Seqs.Filter`, `Seqs.FilterCount`). |
| RideStore.LeaveKeepsOthers | bikerides-mvp-nextjs/app/prototype/BikeRidesPrototype.tsx:422 | A participant survives leaving iff it was listed and has a different user id. |
| RideStore.LeaveKeepsUnique | bikerides-mvp-nextjs/app/prototype/BikeRidesPrototype.tsx:422 | Leaving keeps user ids unique. |
| RideStore.LeaveUndoesJoin | bikerides-mvp-nextjs/app/prototype/BikeRidesPrototype.tsx:421-422 | Joining and then leaving gives the same list as leaving alone. |
| RideStore.RejoinMovesToEnd | bikerides-mvp-nextjs/app/prototype/BikeRidesPrototype.tsx:421-422 | Leaving and then rejoining puts the user last, after the others in their old order. |
| RideStore.UpdateWhere | bikerides-mvp-nextjs/app/prototype/BikeRidesPrototype.tsx:421-423 | The shared frame of the three updaters: the function reaches exactly the rides with the given id, every other ride keeps its value and position, and an id no ride has leaves the list equal. The update also receives the ride's position, because the source's callback runs afresh for each matching ride. |
| RideStore.CreateRide | bikerides-mvp-nextjs/app/prototype/BikeRidesPrototype.tsx:417-418 | The new ride becomes the last element. Earlier rides are untouched. The store invariant holds if the new ride's participants are unique. |
| RideStore.JoinRide | bikerides-mvp-nextjs/app/prototype/BikeRidesPrototype.tsx:421 | Same number and order of rides. A ride with another id is unchanged. A matching ride changes only its participants, which become exactly what `Join` gives: unchanged when the user is already listed, otherwise the user's going entry appended last. An unknown id leaves the store equal. Well-formedness is preserved. |
| RideStore.LeaveRide | bikerides-mvp-nextjs/app/prototype/BikeRidesPrototype.tsx:422 | Same frame as joining. On a matching ride the participants equal `Leave` of the old list. So the user is gone, and the old entries of other users stay in their old order, including repeated ones. An unknown id leaves the store equal. Well-formedness is preserved. |
| RideStore.AddMessage | bikerides-mvp-nextjs/app/prototype/BikeRidesPrototype.tsx:423 | Same frame. A matching ride changes only its messages. The old messages are a prefix, and exactly one message is added at the end. It has the user's name as author and the given body. Its id and instant are the ones drawn for that ride's position (`msgId(i)`, `now(i)`), so rides that share the target id each get their own, as `uid()` and `new Date()` run once per matching ride. An unknown id leaves the store equal. |
| RideStore.JoinRideIdempotent | bikerides-mvp-nextjs/app/prototype/BikeRidesPrototype.tsx:421 | Joining twice equals joining once. |
| RideStore.LeaveRideIdempotent | bikerides-mvp-nextjs/app/prototype/BikeRidesPrototype.tsx:422 | Leaving twice equals leaving once. |
| RideStore.LeaveRideUndoesJoinRide | bikerides-mvp-nextjs/app/prototype/BikeRidesPrototype.tsx:421-422 | On the whole store, join then leave equals leave alone. |
| RideStore.LeaveUndoesJoinPointwise | bikerides-mvp-nextjs/app/prototype/BikeRidesPrototype.tsx:421-422 | Join then leave on the store agrees with leave alone at every ride position. |
| RideStore.AddMessageCommutesWithJoinRide | bikerides-mvp-nextjs/app/prototype/BikeRidesPrototype.tsx:421-423 | Posting a message and joining commute, because they touch different fields. |
| RideForms.SubmitRideForm | bikerides-mvp-nextjs/app/prototype/BikeRidesPrototype.tsx:170-195 | The form refuses iff the title, date or time is empty (an empty date or time leaves no start instant). An accepted ride copies the form's fields. It is scheduled, has no messages, has the organizer as its only participant (going), and its participants are unique. |
| RideForms.CreateFromForm | bikerides-mvp-nextjs/app/prototype/BikeRidesPrototype.tsx:175-195 | A refused form leaves the store equal. An accepted one appends, last, exactly the ride the form built, with the organizer going and an empty chat. The store invariant is preserved. |
| RideForms.TrimStart | bikerides-mvp-nextjs/app/prototype/BikeRidesPrototype.tsx:342 | The result is a suffix of the input. Everything removed is white space, and what remains does not start with white space. |
| RideForms.TrimEnd | bikerides-mvp-nextjs/app/prototype/BikeRidesPrototype.tsx:342 | The result is a prefix of the input. Everything removed is white space, and what remains does not end with white space. |
| RideForms.Trim | bikerides-mvp-nextjs/app/prototype/BikeRidesPrototype.tsx:342 | The trimmed message is no longer than the input, and neither starts nor ends with white space. |
| RideForms.TrimIsSlice | bikerides-mvp-nextjs/app/prototype/BikeRidesPrototype.tsx:342 | The trimmed message is one contiguous slice of the input. |
| RideForms.TrimCutsOnlyWhitespace | bikerides-mvp-nextjs/app/prototype/BikeRidesPrototype.tsx:342 | Before and after that slice there is only white space. |
| RideForms.TrimEmptyIffBlank | bikerides-mvp-nextjs/app/prototype/BikeRidesPrototype.tsx:342 | A message trims to "" iff all of its characters are ECMAScript white space. |
| RideForms.SubmitChat | bikerides-mvp-nextjs/app/prototype/BikeRidesPrototype.tsx:342 | A blank message leaves the store equal. Any other is posted exactly as `AddMessage` posts it: verbatim and untrimmed, with the user as author and a message id and instant drawn per matching ride, on each matching ride only. Well-formedness is preserved. |
| Seqs.Filter | bikerides-mvp-nextjs/app/prototype/BikeRidesPrototype.tsx:403-409 | The result holds exactly the elements that pass the predicate. It is a sub-multiset and a subsequence of the input. |
| StableSort.SortBy | bikerides-mvp-nextjs/app/prototype/BikeRidesPrototype.tsx:412 | The output is non-decreasing in the key and is a permutation of the input. |
| StableSort.SortByStable | bikerides-mvp-nextjs/app/prototype/BikeRidesPrototype.tsx:412 | For every key, the elements with that key appear in the same relative order as in the input. |
| StableSort.StableSortIsUnique | bikerides-mvp-nextjs/app/prototype/BikeRidesPrototype.tsx:412 | Any sorted rearrangement that keeps each key's elements in input order equals the sort's result. |
| RideQuery.VisibleRides | bikerides-mvp-nextjs/app/prototype/BikeRidesPrototype.tsx:402-413 | A ride is listed iff it is stored and passes the text, type, pace and radius filters. Each ride is listed as often as it is stored when it passes, and never otherwise. The listing is non-decreasing in start time. Rides with equal start times keep store order. |
| RideQuery.VisibleRidesUnique | bikerides-mvp-nextjs/app/prototype/BikeRidesPrototype.tsx:402-413 | The listing is the only start-ordered arrangement of the matching rides that keeps ties in store order. |
| RideQuery.VisibleIsPermutation | bikerides-mvp-nextjs/app/prototype/BikeRidesPrototype.tsx:402-412 | The listing is a permutation of the matching rides in store order. |
| RideQuery.ShrinkRadiusSubset | bikerides-mvp-nextjs/app/prototype/BikeRidesPrototype.tsx:410-411 | With everything else fixed, a smaller radius lists a sub-multiset of the rides, so never more of them. |
| RideQuery.Pins | bikerides-mvp-nextjs/app/prototype/BikeRidesPrototype.tsx:415 | There is one pin per ride, in the same order. Each pin carries that ride's id, title, latitude and longitude. |
| RideQuery.PinsFollowListing | bikerides-mvp-nextjs/app/prototype/BikeRidesPrototype.tsx:415 | Each pin is the projection of the listed ride at the same position. That ride is stored and matches the filters, and the pins follow start-time order. |
| Directory.LoadStore | bikerides-mvp-nextjs/app/prototype/BikeRidesPrototype.tsx:29-37 | A missing or empty slot reads as absent. A present result is what parsing the stored text gave. |
| Directory.InitialStore | bikerides-mvp-nextjs/app/prototype/BikeRidesPrototype.tsx:353-388 | The page starts from the loaded snapshot when there is one, and from the example rides otherwise. |
| Directory.SeedIsWellFormed | bikerides-mvp-nextjs/app/prototype/BikeRidesPrototype.tsx:353-388 | The example rides have unique participants, list the mock user in each, and are in start order. |
| Directory.SeedListedUnderDefaultQuery | bikerides-mvp-nextjs/app/prototype/BikeRidesPrototype.tsx:394-413 | With the initial filters (Milan centre, 60 km, no text, all types, all paces), the listing is exactly both example rides in stored order, provided both meeting points are within 60 km. |

## Left out

- The haversine formula (lines 14-25) is floating-point trigonometry. It is the parameter `dist`, and no property depends on its values, except one. `Directory.SeedListedUnderDefaultQuery` assumes that both seed meeting points lie within 60 km of the default centre.
- `toLowerCase` is the parameter `lower`. Unicode case mapping is not modelled.
- Saving the store (`saveStore` and the effect at line 400) and the JSON round trip are I/O through a serializer that is not part of this model. Loading appears only as `Directory.LoadStore`.
- Directory.LoadStore: `parse` yields a whole `Store` or nothing. Parsed JSON of some other shape, which the page would accept and then fail on, is not modelled.
- `uid()` uses `Math.random`, and timestamps come from `Date`. Ids and instants are parameters, and their uniqueness is not modelled.
- RideForms.SubmitRideForm: an invalid date or time string makes `toISOString` throw during rendering. The model treats `toInstant` as total.
- RideForms.SubmitRideForm: `Number`/`parseFloat` coercion of the numeric fields, including non-numeric input becoming NaN, is not modelled. Those fields are taken as numbers. `maxParticipants`, like the distance and the elevation, is a `real`, so a fractional `Number(maxp)` is representable.
- RideQuery.VisibleRides: start times are integers, so the NaN comparisons that an unparseable stored date would cause in the sort comparator are not modelled.
- `route_id` (always null, never read) is not a field of `Ride`.
- `max_participants` is only displayed (lines 271, 285) and never enforced, so no capacity guard exists. The field is carried and not checked.
- The detail modal's local optimistic copy (lines 496-498) is UI state, not the store.
- All markup and presentational components: `Badge`, `Button`, `Modal`, the `TinyMap` pixel projection, `Filters`, `RideCard`, `ModalDetail`.
- app/_components/GeocoderInput.tsx is a debounced network lookup with timers, and is not part of this model. app/_components/MapLeaflet.tsx and app/layout.tsx are presentation, and are not part of this model either.
