# Events pipeline, local store and mock data source — a Dafny model

This project models the core of a client-side community app (WhisperNet). It has three parts.

- **The events list** (`Festivals.dfy`). `filterEvents` fetches the events. It applies the
  filled-in filters in turn: a case-insensitive search in name and description, an exact event
  type, and a date floor. It then sorts the result in place by date, price or name. The fetched
  events come in as an array parameter. `Api.EventsPrefix` says what `fetchAPI('/events')`
  answers with. The filters are specified by `Selected`, the sort by `Sorted` and `Stable`.
  `FilterEvents` is proved against both. Two files support it:
  - `Strings.dfy`: `toLowerCase`, `includes`, `startsWith` and JavaScript's string comparison.
  - `Dates.dfy`: what `new Date(d)` orders by, and the proof that string order on ISO dates is
    chronological order.
- **The local store wrapper** (`LocalStore.dfy`). It covers:
  - the fixed store names and the upgrade loop that provisions them;
  - `put`, `delete`, `clear` and `count` over an abstract map from `id` to record;
  - `saveToDB`'s normalisation of one record or an array into a list;
  - `saveToDB`'s completion counter and error list, as the class `BatchSave` with one method per
    request callback. `Replay` specifies it, and the lemmas say when and how the promise settles.

  The class `Database` holds the database version and its stores. Its methods are the wrappers.
  Each one answers with a `Promise` value: `Pending`, `Resolved` or `Rejected`.
- **The mock data source** (`Api.dfy`): the record shapes, the four fixed collections, and
  `fetchAPI`'s endpoint dispatch.

Modelling choices:
- `toLowerCase` lowers the ASCII letters only.
- `localeCompare` is a character-by-character (Unicode scalar value) comparison of the
  ASCII-lowercased names: a total preorder that
  ignores case.
- `new Date(a.date) - new Date(b.date)` compares the number yyyymmdd of each ISO date. A string
  that is not an ISO date is put after every ISO date.
- `Array.prototype.sort` is a stable sort. It is written as insertion sort by exchanges of
  neighbours, on the array itself.
- Ratings are integers in tenths.

Where the expected behaviour (a "collection not found" error, a pure filter) and the code
differ, the model follows the code:
- `db.transaction` on a name that is not a store throws inside the open request's success
  callback. The promise is then never settled, so the wrappers answer `Pending` there, not a
  "collection not found" rejection.
- With no filter filled in, `filterEvents` sorts the fetched array itself. It is not a pure
  function of its input in that case. `FilterEvents` has `modifies fetched` and returns the same
  array then.
- The date sort orders by the event's date alone. The time is not combined into it.

## Model

| member | source | states |
|---|---|---|
| Strings.LowerChar | js/modules/festivals.js:105-106 | lower-casing maps each of A-Z to its own lower case (32 code points up), leaves every other character alone, and never yields an upper-case letter |
| Strings.LowerIdempotent | js/modules/festivals.js:105-106 | lower-casing twice is lower-casing once |
| Strings.Lower | js/modules/festivals.js:105-106 | `toLowerCase` keeps the length and lowers each character on its own, as `LowerChar` does |
| Strings.ContainsIff | js/modules/festivals.js:105-106 | `includes` holds exactly when the needle occurs at some position of the haystack |
| Strings.Contains | js/modules/festivals.js:105-106 | `includes`: the needle is a prefix of some suffix of the haystack; `ContainsIff` shows this is occurrence at some position |
| Strings.StartsWith | js/utils/api.js:17-22 | `startsWith`: the prefix relation on strings; `RulesDisjoint` and the `...Prefix` lemmas use it for the endpoint rules |
| Strings.ContainsEmpty | js/modules/festivals.js:103-106 | every string includes the empty string |
| Strings.ContainsSuffix | js/utils/api.js:27 | a string includes each of its suffixes |
| Strings.ContainsFirstChar | js/modules/festivals.js:105-106 | a haystack without the needle's first character does not include the needle |
| Strings.Compare | js/modules/festivals.js:115 | the string comparison yields -1, 0 or 1 |
| Strings.ProperPrefixFirst | js/modules/festivals.js:115 | a proper prefix sorts before the longer string |
| Strings.CompareAntisymmetric | js/modules/festivals.js:115 | swapping the operands negates the comparison |
| Strings.CompareZeroIffEqual | js/modules/festivals.js:115 | the comparison is 0 exactly for equal strings |
| Strings.StrLe | js/modules/festivals.js:115 | `a <= b` on strings: the comparison is not positive; `StrLeTransitive` and `StrLeTotal` make it a total order |
| Strings.StrLeTransitive | js/modules/festivals.js:115 | string `<=` is transitive |
| Strings.StrLeTotal | js/modules/festivals.js:115 | string `<=` is total |
| Strings.CompareCons | js/modules/festivals.js:115 | a common first character does not change the comparison |
| Strings.FirstDifference | js/modules/festivals.js:115 | after a common prefix, the first differing character decides the comparison |
| Dates.Num | js/modules/festivals.js:122 | the value of a digit string of length n is below 10^n |
| Dates.DateValue | js/modules/festivals.js:122 | an ISO date is below 100000000; any other string is exactly 100000000, after every ISO date |
| Dates.CompareAppend | js/modules/festivals.js:115 | for heads of equal length, the heads decide the comparison unless they are equal |
| Dates.DigitOrder | js/modules/festivals.js:115-122 | for digit strings of one length, string order is numeric order |
| Dates.HeadDecides | js/modules/festivals.js:122 | a larger leading digit outweighs any difference in the lower digits |
| Dates.DropEqualAt | js/modules/festivals.js:115 | a position holding the same character in both strings can be dropped without changing the comparison |
| Dates.IsoCompareDigits | js/modules/festivals.js:115 | two ISO dates compare as their eight digits do |
| Dates.IsoStringOrderIsChronological | js/modules/festivals.js:114-122 | for ISO dates, the string order of the date filter equals the chronological order of the date sort |
| Api.FetchAPI | js/utils/api.js:17-27 | an endpoint has an answer exactly when it starts with `/businesses`, `/posts` or `/events`, or is exactly `/trending-topics`; otherwise the error message includes the endpoint |
| Api.EventsPrefix | js/utils/api.js:21-22 | every endpoint starting with `/events` answers with the events collection |
| Api.BusinessesPrefix | js/utils/api.js:17-18 | every endpoint starting with `/businesses` answers with the businesses collection |
| Api.PostsPrefix | js/utils/api.js:19-20 | every endpoint starting with `/posts` answers with the posts collection |
| Api.RulesDisjoint | js/utils/api.js:17-24 | no endpoint matches two rules, so the order in which they are tried does not matter |
| Api.TrendingTopicsExact | js/utils/api.js:23-24 | `/trending-topics` answers with the topics; any longer endpoint starting with it is an error |
| Api.MockEventsShape | js/utils/api.js:84-107 | the events collection has two records, ids "1" and "2", on 2024-07-15 and 2024-08-20 |
| Api.MockBusinessesShape | js/utils/api.js:35-56 | the businesses collection has two records, ids "1" and "2", rated 4.5 and 4.8 |
| Api.MockPosts | js/utils/api.js:58-82 | the posts collection is one post with one comment, both stamped with the clock's time |
| Api.MockTrendingTopicsShape | js/utils/api.js:109-125 | the trending topics are three records, ids "1" to "3", with 156, 89 and 234 posts |
| Festivals.Holds | js/modules/festivals.js:104-116 | one filter's test: a case-insensitive `includes` in name or description, the exact type, or a date not below the floor in string order; `ActiveCriteriaMeaning` ties it to the fields |
| Festivals.Keep | js/modules/festivals.js:104-116 | `filter` by every criterion: never longer than its input, and every event kept satisfies all the criteria |
| Festivals.ActiveCriteria | js/modules/festivals.js:103-114 | each filled-in field contributes its filter, at most three, and none when every field is empty |
| Festivals.Selected | js/modules/festivals.js:103-116 | the events shown before sorting: never more than were fetched, and all of them when every field is empty |
| Festivals.KeepMember | js/modules/festivals.js:104-116 | an event is kept exactly when it was in the input and all criteria hold of it |
| Festivals.KeepSubsequence | js/modules/festivals.js:104-116 | the kept events are a subsequence of the input |
| Festivals.AllHoldSnoc | js/modules/festivals.js:103-116 | all criteria plus one more hold exactly when all hold and the new one holds |
| Festivals.KeepFusion | js/modules/festivals.js:103-116 | filtering by some criteria and then by one more equals filtering once by all of them |
| Festivals.KeepNothingActive | js/modules/festivals.js:103-116 | filtering by no criteria keeps every event |
| Festivals.ActiveCriteriaMeaning | js/modules/festivals.js:103-116 | the active criteria hold exactly when each filled-in field matches: the search in name or description, the exact type, and the date at or after the floor |
| Festivals.SelectedMember | js/modules/festivals.js:103-116 | an event is shown exactly when it was fetched and passes the AND of the filled-in filters |
| Festivals.SelectedSubsequence | js/modules/festivals.js:103-116 | the filtered list is a subsequence of the fetched list |
| Festivals.EmptySearchKeepsAll | js/modules/festivals.js:103-107 | an empty search would keep every event |
| Festivals.DateFloorIsChronological | js/modules/festivals.js:114-116 | for ISO dates, the date floor keeps exactly the events on or after that day |
| Festivals.StableTransitive | js/modules/festivals.js:119-130 | keeping the order of ties is transitive |
| Festivals.SortKeyOf | js/modules/festivals.js:120-129 | the `switch` on the sort field: "date", "price" and "name" choose their key, any other value the comparator that returns 0 |
| Festivals.Comparator | js/modules/festivals.js:119-130 | the comparator by date value, ticket price or lowered name; `TieReflexive`, `ComparatorAntisymmetric` and `InOrderTransitive` make it a consistent comparator |
| Festivals.TieReflexive | js/modules/festivals.js:119-130 | every event ties with itself |
| Festivals.ComparatorAntisymmetric | js/modules/festivals.js:119-130 | swapping the two events negates the comparator |
| Festivals.ComparatorFlip | js/modules/festivals.js:119-130 | if the comparator puts `b` first, then it puts `b` first with the operands swapped too |
| Festivals.InOrderTransitive | js/modules/festivals.js:119-130 | the comparator's order is transitive for every sort key |
| Festivals.TieTransitive | js/modules/festivals.js:119-130 | ties under the comparator are transitive |
| Festivals.TiesAppend | js/modules/festivals.js:119-130 | the ties of a concatenation are the concatenation of the ties |
| Festivals.SwapOutOfOrder | js/modules/festivals.js:119-130 | exchanging two neighbours in the wrong order keeps the order of every tie class |
| Festivals.SwapTies | js/modules/festivals.js:119-130 | a tie class is the same whichever way round two out-of-order neighbours stand |
| Festivals.TiesPair | js/modules/festivals.js:119-130 | the tie class within two neighbours is those of the two that tie, in order |
| Festivals.SwapAtUpdate | js/modules/festivals.js:119 | exchanging neighbours is two element updates |
| Festivals.Exchange | js/modules/festivals.js:119 | the array afterwards is the old contents with the two neighbours exchanged |
| Festivals.NeighboursSorted | js/modules/festivals.js:119-130 | neighbours in order means every pair is in order |
| Festivals.TiesUnordered | js/modules/festivals.js:127-128 | when the comparator always returns 0, every event ties, so the tie class of any event is the whole list |
| Festivals.TiesMember | js/modules/festivals.js:119-130 | a tie class holds only events of its sequence |
| Festivals.SortedHead | js/modules/festivals.js:119-130 | in a sorted sequence every event is in order after the first |
| Festivals.StableEmpty | js/modules/festivals.js:119-130 | sequences with the same tie classes are both empty or both not |
| Festivals.SortedStableUnique | js/modules/festivals.js:119-130 | two sorted sequences with the same tie classes are equal |
| Festivals.StableSortDeterministic | js/modules/festivals.js:119-130 | any two stable sorts of the same events agree, so `FilterEvents` shows one determined order |
| Festivals.InsertAt | js/modules/festivals.js:119 | one insertion pass extends the sorted prefix by one, permutes the array, keeps the order of ties, and leaves the events after the pass's position alone |
| Festivals.SortInPlace | js/modules/festivals.js:119-130 | the sort permutes the array in place into comparator order and keeps tied events in their order |
| Festivals.FilterArray | js/modules/festivals.js:104-116 | `filter` gives a new array of exactly the kept events |
| Festivals.ActiveCriteriaSteps | js/modules/festivals.js:103-116 | each filled-in field adds its criterion after those of the earlier filters; an empty field adds nothing |
| Festivals.ApplyFilters | js/modules/festivals.js:100-116 | after the three filter steps the list is the selection; with no field filled in it is the fetched array itself |
| Festivals.SortedMeaning | js/modules/festivals.js:121-124 | sorted by price means ticket prices never decrease; sorted by date means dates never go back |
| Festivals.FilterEvents | js/modules/festivals.js:93-136 | the shown events are a permutation of the selection, in comparator order and stable; under price and date the keys never decrease; an unknown sort key shows the selection in fetched order; the fetched array changes only when no filter is filled in |
| Festivals.SortedByDateIso | js/modules/festivals.js:121-122 | events sorted by date have their ISO dates in string order |
| Festivals.NameOrderIgnoresCase | js/modules/festivals.js:125-126 | sorting by name puts "apple Day" before "Banana Fest" |
| Festivals.KeepTwo | js/modules/festivals.js:104-116 | filtering two events keeps those all criteria accept, in order |
| Festivals.SelectedTwo | js/modules/festivals.js:103-116 | the selection from two events is those that pass, in order |
| Festivals.SearchMusicExample | js/modules/festivals.js:103-107 | searching "music" keeps the music festival and drops the food and wine expo |
| Festivals.MusicFestivalMatches | js/modules/festivals.js:104-105 | "music" finds "Music" in "Summer Music Festival" |
| Festivals.ExpoDoesNotMatch | js/modules/festivals.js:104-106 | "music" is in neither the name nor the description of the expo |
| Festivals.ExpoNameLacksM | js/utils/api.js:98 | the expo's name has no m of either case |
| Festivals.ExpoDescriptionLacksM | js/utils/api.js:100 | the expo's description has no m of either case |
| Festivals.SearchMissesLetter | js/modules/festivals.js:104-106 | a search fails when neither case of its first letter appears in the name or the description |
| Festivals.LowerSlice | js/modules/festivals.js:105 | lower-casing commutes with taking a slice |
| Festivals.LowerLacks | js/modules/festivals.js:105-106 | lower-casing cannot produce a letter whose two cases were absent |
| Festivals.DateFloorExample | js/modules/festivals.js:114-116 | a floor of 2024-08-01 keeps the event on 2024-08-20 and drops the one on 2024-07-15 |
| Festivals.FloorBetween | js/modules/festivals.js:115 | 2024-08-01 sorts after 2024-07-15 and not after 2024-08-20 |
| Festivals.FloorKeepsSecond | js/modules/festivals.js:114-116 | a floor above the first date and not above the second keeps the second event alone |
| Festivals.MockEventsExamples | js/utils/api.js:84-107 | applied to the mock events collection, the two examples select the festival and the expo respectively |
| LocalStore.StoresDistinct | js/utils/db.js:6-14 | the seven store names are distinct, so the upgrade provisions seven stores |
| LocalStore.StoreNames | js/utils/db.js:6-14 | the set of `STORES` values, `businesses` to `pendingPurchases`; `StoresDistinct` counts seven |
| LocalStore.DistinctCard | js/utils/db.js:35 | a sequence without repeats has as many distinct values as elements |
| LocalStore.Put | js/utils/db.js:82 | `put` leaves exactly one entry for the record's id, equal to the record; the other keys are unchanged; records stay keyed by id |
| LocalStore.Delete | js/utils/db.js:118 | `delete` removes the key and leaves every other record unchanged; deleting an absent key changes nothing |
| LocalStore.PutCount | js/utils/db.js:82 | a put adds one to the count exactly when the key was new |
| LocalStore.DeleteCount | js/utils/db.js:118 | a delete takes one off the count exactly when the key was present |
| LocalStore.PutIdempotent | js/utils/db.js:82 | putting the same record twice is putting it once |
| LocalStore.DeleteUndoesPut | js/utils/db.js:118 | deleting the key just put gives the store as if only the delete had run |
| LocalStore.Count | js/utils/db.js:156 | `count()` is the number of keys, zero exactly for an empty store |
| LocalStore.Items | js/utils/db.js:76 | a single record becomes a one-element list; an array is used as it is; the list is empty only for an empty array |
| LocalStore.PutAll | js/utils/db.js:81-82 | the successful puts of a batch applied in issue order; no key is ever removed |
| LocalStore.PutAllLastWins | js/utils/db.js:81-82 | after a batch, each key holds the last successfully put record with that id, or its old record if no successful put wrote it |
| LocalStore.PutAllStep | js/utils/db.js:81-82 | the batch up to a request is the batch before it followed by that request's put, if it succeeded |
| LocalStore.LastWrite | js/utils/db.js:81-82 | the position found is a successful write of the key, and no later request writes it |
| LocalStore.PutAllKeyedById | js/utils/db.js:81-82 | a batch keeps every record under its own id |
| LocalStore.Callback | js/utils/db.js:84-101 | each callback bumps the counter; `onerror` appends its error; the outcome changes only when the counter reaches the total |
| LocalStore.Replay | js/utils/db.js:78-101 | the closure state after the callbacks have fired in order; the counter equals the number fired |
| LocalStore.FailedErrors | js/utils/db.js:96 | there are never more errors than requests |
| LocalStore.FailedErrorsCount | js/utils/db.js:79-97 | the error list holds one error per failed request; it is empty exactly when every request succeeded |
| LocalStore.ReplaySettles | js/utils/db.js:78-101 | the counter equals the callbacks fired and never exceeds the batch size; the errors are the failures in order; the promise settles exactly when every request has finished and there was at least one; it resolves when none failed and otherwise rejects with the error list |
| LocalStore.ThreeRecords | js/utils/db.js:84-101 | three successful puts resolve; a failure in the middle of three rejects with that one error |
| LocalStore.EmptyBatchNeverSettles | js/utils/db.js:76-81 | an empty array issues no request, so the promise stays pending |
| LocalStore.BatchSave.constructor | js/utils/db.js:78-79 | the counter starts at zero and the error list empty, with the promise pending |
| LocalStore.BatchSave.OnSuccess | js/utils/db.js:84-93 | the counter goes up by one; when it reaches the total the promise rejects with the errors if any, and resolves otherwise |
| LocalStore.BatchSave.OnError | js/utils/db.js:95-101 | the error is appended and the counter goes up by one; when it reaches the total the promise rejects with the errors |
| LocalStore.PutBatch | js/utils/db.js:81-102 | the store afterwards is the successful puts applied in order, and the promise is as the callbacks left it |
| LocalStore.Database.Open | js/utils/db.js:47 | opening without a version creates an absent database at version 1 with no stores; an existing one is unchanged |
| LocalStore.Database.Upgrade | js/utils/db.js:31-40 | afterwards the stores are the old ones plus every name of the store list; existing stores and their records are kept; new stores are empty; it runs once the database carries its new version |
| LocalStore.Database.InitDB | js/utils/db.js:17-42 | opening at version 1 runs the upgrade when the database is older, so that every name of `STORES` is a store; every existing store keeps its records, every new one is empty, and the promise resolves |
| LocalStore.Database.GetFromDB | js/utils/db.js:45-61 | resolves with the records of the store, each once; stays pending for an unknown store |
| LocalStore.Database.SaveToDB | js/utils/db.js:64-105 | the named store receives the batch's successful puts, and the promise is the one the counter settles; stays pending for an unknown store |
| LocalStore.Database.DeleteFromDB | js/utils/db.js:108-124 | the key is removed from the named store, and the promise resolves; stays pending for an unknown store |
| LocalStore.Database.ClearStore | js/utils/db.js:127-143 | the named store is empty afterwards, so its count is 0, and the promise resolves; stays pending for an unknown store |
| LocalStore.Database.GetStoreCount | js/utils/db.js:146-162 | resolves with the number of records in the store; stays pending for an unknown store |

## Left out

- DOM construction, the filter form's listeners, `displayEvents` and the event cards are not
  modelled: they are user-interface code. The fetched events are a parameter of `FilterEvents`.
- The 300 ms debounce of the search box is not modelled: it depends on timing.
- `filterEvents`'s `catch` is not modelled: `fetchAPI('/events')` never fails (`Api.EventsPrefix`).
- Locale-dependent date and time formatting and `new Date(date + 'T' + time)` are not modelled.
- Dates.DateValue: dates are assumed well-formed. `IsIsoDate` checks the `yyyy-mm-dd` shape only,
  so "2024-13-01" is valued 20241301 where the host gives an invalid date. Any other string is
  valued after every ISO date, whereas the host parses some of them (such as "2024/07/15") and
  gives NaN for the rest, which makes its comparator inconsistent.
- Strings.Compare: strings are compared char by char, by Unicode scalar value. JavaScript
  compares UTF-16 code units, so the two orders differ once a character lies outside the Basic
  Multilingual Plane: JavaScript puts "\uFF61" after "😀" (whose first code unit is 0xD83D), and
  `Compare` puts it before.
- Festivals.NameOrderIgnoresCase: `localeCompare` is modelled as a character-by-character
  (Unicode scalar value) comparison of the ASCII-lowercased names, not the host's collation.
- Strings.LowerChar: `toLowerCase` is modelled on ASCII letters only; other Unicode case mappings
  are not.
- Festivals.SortInPlace: the engine's sorting algorithm is not modelled. The model is a stable
  insertion sort, so only the properties of every stable sort carry over.
- The aliasing of the mock events array across calls is not modelled. `fetchAPI` returns the same
  `mockEvents` array every time, and an unfiltered sort reorders it for later callers too. The
  model starts each `FilterEvents` from the array it is given.
- The database name `whispernet_db` is not modelled: the model holds the one database it names.
- The IndexedDB open, transaction and request plumbing and its error callbacks are taken as given:
  it is the browser's API. So are `onerror` for the open request and `VersionError`. A version
  above 1 never arises in this model.
- LocalStore.Database.SaveToDB: a failed put does not abort the transaction or roll back the
  puts before it, as IndexedDB would. Each request's fate is an input, and the successful puts
  stay written. In IndexedDB a failed put aborts the transaction, so every later request fails
  too, with an `AbortError`. A sequence of fates such as `[Succeeds, Fails(e), Succeeds]` (the
  second case of `LocalStore.ThreeRecords`) therefore cannot arise there, and the rejection there
  would list the `AbortError` of the third request as well.
- LocalStore.Database.GetFromDB: the key order of `getAll` is not modelled. The records come in
  an unspecified order, each once.
- `autoIncrement` key generation is not modelled: every record here carries its own `id`.
- The 500 ms simulated delay, `setupAPI` and the error logging are not modelled: they are timing
  and console output.
- Api.MockPosts: the two `new Date().toISOString()` stamps are one parameter `now`. The clock is
  outside the model.
- Ratings are integers in tenths, because floating point is not modelled.
- js/utils/mockData.js is not part of this model. It is a delay and a call into a module that
  is not available.
