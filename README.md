# letsplay match scheduler — a Dafny model

letsplay keeps a shared list of small-sided football matches: a stadium from
a fixed catalog, two rosters sized by the stadium, a day and a time, and,
once played, a score. The list lives in the `matches` collection of a
Firestore document store. Every browser that has the page open subscribes
to that collection and renders it as cards. This project models the core of
the program:

- `match_service.dfy` (`MatchService`): the repository. It covers save,
  delete and score update over a document store, and the snapshot listener
  that turns the collection into a list sorted newest first by `createdAt`.
  The store is a `Firestore` class holding a map from document key to
  document. Each of its writes is tied to a pure specification function.
  A remote failure is a `fault` parameter. The server clock that resolves
  `serverTimestamp()` is a `serverSeconds` parameter.
- `app.dfy` (`AppView`): the App component. It holds the mirrored
  `matches`, the display comparator as written (records carrying both
  `team1Score` and `team2Score` last, then newest `timestamp` first), and
  the handlers for create/edit, delete, score update, edit and close.
  Since no record ever carries those two fields, the displayed order is
  by `timestamp` alone (see below).
- `match_card.dfy` (`MatchCard`): one card. It covers the finished test,
  the score entry that accepts any text (`parseInt(x) || 0`), the delete
  confirmation, and the Escape key. The callbacks the card fires are
  recorded in order.
- `match_modal.dfy` (`MatchModal`): the create/edit form. It covers the
  reset on open, the stadium effect that sizes both rosters to
  `maxPlayers / 2` empty slots, player edits, and the record handed to
  `onSubmit`.
- `image_preloader.dfy` (`ImagePreloading`): the image cache. A key is
  loaded or in flight, never both. There is at most one load per key, and
  a failed load can be requested again. The critical batch succeeds
  exactly when every critical image ends up loaded.

Four modules describe the JavaScript semantics the core relies on:

- `js_value.dfy`: JS values and records. Object spread is map union where
  the right side wins. It also defines truthiness, `||` and `String(v)`.
- `js_number.dfy`: `parseInt` and `Number.prototype.toString`. `parseInt`
  skips leading whitespace, takes an optional sign, accepts a `0x` prefix
  and reads the longest digit prefix. NaN is `None`.
- `js_array.dfy`: `Array.prototype.sort`, an in-place sort on an array
  proved to produce a permutation ordered by the comparator.
- `wrappers.dfy`: `Option`.

The display order compares `team1Score`/`team2Score`, but the
application itself stores the result as `score: {team1, team2}`. The model
keeps the comparator exactly as written. It proves that no record the
application writes ever carries those two fields, so the first sort key
never decides and the list is ordered by `timestamp` alone. A newer
finished match is therefore shown before an older unfinished one
(`AppView.FinishedMatchIsNotMovedBack`,
`AppView.DeliveredRecordsHaveNoTeamScoreFields`). The comparator's own
comment (src/App.jsx:151) says unfinished matches come first. No record
ever carries `team1Score`/`team2Score`, so the code does not do this, and
the model follows the code.

Saving an edit replaces the whole document. The form's record has no
`score` and no `createdAt`, so editing a finished match drops its score and
stamps `createdAt` afresh (`MatchModal.EditDropsScoreAndRestampsCreatedAt`).
The model shows this as the code behaves. Id and `timestamp` survive the
edit (`AppView.EditWritesBackToSameDocument`).

## Model

| member | source | states |
|---|---|---|
| MatchService.Firestore.SetDoc | src/firebase/matchService.js:25 | the collection after the write is the one `SetDocSpec` gives: whole-document replace, refused when a field is undefined or the store fails |
| MatchService.Firestore.UpdateDoc | src/firebase/matchService.js:50-53 | the collection after the write is the one `UpdateDocSpec` gives: field merge, refused for a missing document |
| MatchService.Firestore.DeleteDoc | src/firebase/matchService.js:37 | the collection after the delete is the one `DeleteDocSpec` gives; deleting a missing document succeeds |
| MatchService.SaveMatch | src/firebase/matchService.js:16-32 | result and new collection are exactly those of `SaveMatchSpec`: an id that addresses no document, a store failure or an undefined field give `false` with the collection untouched |
| MatchService.DeleteMatch | src/firebase/matchService.js:35-44 | result and new collection are exactly those of `DeleteMatchSpec` |
| MatchService.UpdateMatchScore | src/firebase/matchService.js:47-60 | result and new collection are exactly those of `UpdateMatchScoreSpec` |
| MatchService.SaveMultipleMatches | src/firebase/matchService.js:92-102 | the saves apply in array order, and the result is always `true` because a single save never rejects |
| MatchService.SaveStoresInputWithStamps | src/firebase/matchService.js:18-25 | after a successful save the document holds exactly the input's fields plus a fresh `updatedAt`; `createdAt` is kept only when truthy; other documents are unchanged |
| MatchService.ToSaveFields | src/firebase/matchService.js:19-23 | the written document has the input's fields, `updatedAt` as the server stamp, and `createdAt` kept only when truthy |
| MatchService.SaveFailsOnlyAsFalse | src/firebase/matchService.js:16-31 | a save succeeds if and only if the id is a valid key, the store is up and no field is undefined; a failure leaves the collection as it was |
| MatchService.ScoreUpdateTouchesOnlyScore | src/firebase/matchService.js:49-55 | a successful score update sets `score` and `updatedAt` and leaves every other field and document unchanged |
| MatchService.ScoreUpdateOfMissingDocumentFails | src/firebase/matchService.js:49-59 | a score update of an absent document returns `false` and changes nothing |
| MatchService.DeleteRemovesOnlyThatDocument | src/firebase/matchService.js:35-43 | a delete succeeds if and only if the id is a valid key and the store is up; it removes exactly that key |
| MatchService.SaveAllKeepsUntouchedKeys | src/firebase/matchService.js:92-95 | a batch never touches a document whose key none of its records addresses |
| MatchService.ToSave | src/firebase/matchService.js:18-23 | the record `saveMatch` writes: the input spread, then `updatedAt` as the server stamp and `createdAt` kept when truthy, else the server stamp |
| MatchService.ScorePatch | src/firebase/matchService.js:50-53 | the two fields `updateMatchScore` merges: `score` and `updatedAt` as the server stamp |
| MatchService.Shaped | src/firebase/matchService.js:68-73 | the snapshot's records in snapshot order, each `{ id: doc.id, ...doc.data() }` |
| MatchService.CreatedSeconds | src/firebase/matchService.js:77-78 | `createdAt?.seconds \|\| 0`: the stamp's seconds, or 0 when there is none |
| MatchService.NewestFirst | src/firebase/matchService.js:76-80 | the listener's comparator: negative exactly when the first record is newer, zero exactly when both have the same `createdAt` seconds |
| MatchService.OnSnapshot | src/firebase/matchService.js:66-82 | one record per snapshot document (a permutation of the shaped records), ordered by `createdAt.seconds` descending, with a missing stamp counting as 0 |
| MatchService.Listener | src/firebase/matchService.js:66-86 | a snapshot delivers its records newest first; a listener error delivers the empty list |
| MatchService.ShapedRecordId | src/firebase/matchService.js:69-72 | a record's `id` is the document key unless the stored data has its own `id`, which wins the spread |
| MatchService.OneRecordPerDocument | src/firebase/matchService.js:66-73 | a snapshot of the collection yields exactly as many records as there are documents |
| JsArray.SortInPlace | src/firebase/matchService.js:76-80 | `Array.prototype.sort` leaves the array a permutation of its old contents, in which each neighbouring pair is in comparator order |
| JsNumber.ParseInt | src/components/MatchCard/MatchCard.jsx:75-76 | `parseInt` with no radix: leading white space skipped, an optional sign, a `0x`/`0X` prefix selecting base 16, the longest digit run read and the rest ignored; no digit gives NaN (`None`) |
| JsNumber.ParseIntOfIntToString | src/components/MatchCard/MatchCard.jsx:75-76 | `parseInt` reads back every integer's decimal string |
| JsNumber.IntToStringHasNoSlash | src/App.jsx:53 | `Date.now().toString()` is non-empty and has no `/`, so it names a single document |
| MatchCard.IsFinished | src/components/MatchCard/MatchCard.jsx:90 | a match is finished when its `score` is truthy and both sides are not `undefined` |
| MatchCard.Coerce | src/components/MatchCard/MatchCard.jsx:75-76 | `parseInt(x) \|\| 0` on an input value; a stored number reads back as itself |
| MatchCard.ScoreValue | src/components/MatchCard/MatchCard.jsx:74-77 | the score object `saveScore` sends: `{team1, team2}`, each side coerced |
| MatchCard.StoredInput | src/components/MatchCard/MatchCard.jsx:11-12 | what a score input shows for a stored match: `match.score?.team1 \|\| ''` and likewise for team 2 |
| MatchCard.CardState.constructor | src/components/MatchCard/MatchCard.jsx:7-12 | both modals closed; the inputs show the stored score sides, with a falsy side shown as `''` |
| MatchCard.CardState.ReceiveMatch | src/App.jsx:162-163 | a re-render of the same card (same `key`, same id) replaces its `match` prop and keeps its local state: open modals and score inputs |
| MatchCard.CardState.HandleDelete | src/components/MatchCard/MatchCard.jsx:52-54 | only opens the delete confirmation |
| MatchCard.CardState.ConfirmDelete | src/components/MatchCard/MatchCard.jsx:57-60 | closes the confirmation and fires `onDelete(match.id)` exactly once |
| MatchCard.CardState.CancelDelete | src/components/MatchCard/MatchCard.jsx:63-65 | closes the confirmation and fires nothing |
| MatchCard.CardState.HandleFinish | src/components/MatchCard/MatchCard.jsx:68-70 | only opens the score entry |
| MatchCard.CardState.TypeScore | src/components/MatchCard/MatchCard.jsx:324-341 | the edited side's input holds the typed text and the other side is unchanged |
| MatchCard.CardState.SaveScore | src/components/MatchCard/MatchCard.jsx:73-80 | fires `onUpdateScore(match.id, {team1, team2})` once, with each side `parseInt(input) \|\| 0`, and closes the entry |
| MatchCard.CardState.CancelScore | src/components/MatchCard/MatchCard.jsx:83-87 | the inputs show the stored score again, the entry closes, and nothing is fired |
| MatchCard.CardState.PressEscape | src/components/MatchCard/MatchCard.jsx:25-38 | Escape closes every open modal as its cancel would; an open score entry also resets its inputs |
| MatchCard.SavedScoreFinishesMatch | src/components/MatchCard/MatchCard.jsx:73-90 | whatever was typed, a stored score update makes the match finished |
| MatchCard.NilNilIsFinished | src/components/MatchCard/MatchCard.jsx:90 | a 0 : 0 score is finished, since the test compares with `undefined` rather than truthiness |
| MatchCard.NoDigitIsZero | src/components/MatchCard/MatchCard.jsx:75-76 | any input with no digit in it (empty, blank, signs only, text) is sent as 0 |
| MatchCard.TypedIntegerIsSentUnclamped | src/components/MatchCard/MatchCard.jsx:75-76 | any typed integer, negative or above the inputs' max, is sent unchanged |
| MatchCard.CancelledInputReadsBackStoredSide | src/components/MatchCard/MatchCard.jsx:84-85 | after a cancel, saving sends back each stored side, including a stored 0 shown as `''` |
| AppView.HasScore | src/App.jsx:152-153 | a record counts as scored when neither `team1Score` nor `team2Score` is `undefined` |
| AppView.DisplayCompare | src/App.jsx:150-160 | the display comparator as written: unscored before scored, then newest `timestamp` first, with an invalid date comparing as 0 |
| AppView.SortedForDisplay | src/App.jsx:149-160 | a sorted copy that is a permutation of `matches`; records with both score fields come last, each group is newest `timestamp` first, and with no score fields the order is by date alone |
| AppView.DisplayCompareTransitive | src/App.jsx:150-160 | on valid dates the display comparator is transitive |
| AppView.DisplayOrderGroupsThenDates | src/App.jsx:150-160 | a list in comparator order puts unscored before scored and is newest first within each group |
| AppView.FinishedMatchIsNotMovedBack | src/App.jsx:152-156 | a newer finished match sorts before an older unfinished one, because the comparator looks at fields the application never writes |
| AppView.WritesKeepNoTeamScoreFields | src/firebase/matchService.js:19-23 | save, delete and score update never introduce `team1Score`/`team2Score` into the store |
| AppView.DeliveredRecordsHaveNoTeamScoreFields | src/firebase/matchService.js:69-72 | every record delivered from such a store lacks those fields |
| AppView.FindIndex | src/App.jsx:79 | the first record whose `id` equals the argument, or none if no record has it |
| AppView.FindById | src/App.jsx:79 | `matches.find` by id: a record with that id if any record has it, and none exactly when no record has it |
| AppView.SentRecord | src/App.jsx:43-54 | the record `handleCreateMatch` saves: an edit's record as given, a new match's with `id` set to `Date.now().toString()` |
| AppView.CreatePathIdIsDocKey | src/App.jsx:53 | the create path's id `Date.now().toString()` always addresses a document |
| AppView.EditWritesBackToSameDocument | src/App.jsx:43-47 | saving an edited match writes back to the same document; its id and `timestamp` are those of the edited record and no document is added |
| AppView.App.constructor | src/App.jsx:15-21 | no matches, modal closed, nothing being edited |
| AppView.App.OnMatches | src/App.jsx:29-31 | each push replaces `matches` wholesale |
| AppView.App.OnListenerEvent | src/App.jsx:29-31 | a snapshot's records become `matches`, and a listener error empties it |
| AppView.App.Displayed | src/App.jsx:149-160 | the rendered list is a permutation of `matches` in display order: unscored before scored, newest first within each group, and by date alone when no record has score fields |
| AppView.App.HandleCreateMatch | src/App.jsx:41-64 | an edit saves the record as given, a create adds a fresh string id; failure alerts; `editingMatch` is cleared only by a successful edit; the modal closes on both paths |
| AppView.App.HandleDeleteMatch | src/App.jsx:66-76 | the store changes as `deleteMatch` specifies; failure only alerts |
| AppView.App.HandleUpdateScore | src/App.jsx:101-111 | the store changes as `updateMatchScore` specifies; failure only alerts |
| AppView.App.HandleEditMatch | src/App.jsx:78-84 | opens the form on the first record with that id; an unknown id changes nothing |
| AppView.App.HandleModalClose | src/App.jsx:96-99 | closes the modal and clears the editing record |
| AppView.App.OpenNewMatchForm | src/App.jsx:179-182 | opens an empty form |
| MatchModal.FindStadium | src/components/MatchModal/MatchModal.jsx:60 | a catalog stadium whose id equals `parseInt(selected)`, or none if no stadium matches |
| MatchModal.PlayersPerTeam | src/components/MatchModal/MatchModal.jsx:60-61 | half the chosen stadium's capacity, or 0 when no stadium matches |
| MatchModal.EmptySlots | src/components/MatchModal/MatchModal.jsx:65-66 | `Array(n).fill('')`: n empty names |
| MatchModal.SetSlot | src/components/MatchModal/MatchModal.jsx:181-182 | `newPlayers[index] = value` on a copy: the slot holds the value, other slots are kept, and writing past the end grows the array with `undefined` holes |
| MatchModal.SubmitRecord | src/components/MatchModal/MatchModal.jsx:161-175 | the record `handleSubmit` builds: stadium, both rosters, time, day, and the edited record's `timestamp` and `id` or fresh ones |
| MatchModal.FormState.constructor | src/components/MatchModal/MatchModal.jsx:7-11 | every field is empty |
| MatchModal.FormState.SyncRosters | src/components/MatchModal/MatchModal.jsx:58-67 | with a stadium chosen, both rosters become `maxPlayers / 2` empty slots unless an edit's first roster already has that size |
| MatchModal.FormState.Open | src/components/MatchModal/MatchModal.jsx:21-39 | a new match starts blank; an edit copies the rosters, time and day and selects the stadium by its id string, after which the stadium effect runs |
| MatchModal.FormState.SelectStadium | src/components/MatchModal/MatchModal.jsx:369 | the choice is stored, and the stadium effect runs only when it changed |
| MatchModal.FormState.SetMatchDay | src/components/MatchModal/MatchModal.jsx:400 | only the day changes |
| MatchModal.FormState.SetMatchTime | src/components/MatchModal/MatchModal.jsx:438 | only the time changes |
| MatchModal.FormState.HandlePlayerChange | src/components/MatchModal/MatchModal.jsx:179-189 | team 1, or for any other number team 2, gets one slot set; growing roster 1 reruns the stadium effect |
| MatchModal.FormState.HandleSubmit | src/components/MatchModal/MatchModal.jsx:161-175 | passes the form's record to `onSubmit` exactly once |
| MatchModal.PlayerEditKeepsRosterShape | src/components/MatchModal/MatchModal.jsx:179-189 | an in-range edit keeps the roster's length and every other slot |
| MatchModal.ResetRostersMatchStadium | src/components/MatchModal/MatchModal.jsx:60-66 | a reset gives each team `maxPlayers / 2` empty slots |
| MatchModal.SubmittedRecordFields | src/components/MatchModal/MatchModal.jsx:165-173 | the record has exactly the form's seven fields, with no score and no `createdAt`; id and timestamp come from the edited record or are fresh |
| MatchModal.EditDropsScoreAndRestampsCreatedAt | src/components/MatchModal/MatchModal.jsx:165-173 | saving an edit drops a stored score and stamps `createdAt` afresh, keeping id and timestamp |
| ImagePreloading.ImagePreloader.constructor | src/utils/imagePreloader.js:8-19 | empty cache; one critical image and three secondary ones under their keys |
| ImagePreloading.ImagePreloader.PreloadImage | src/utils/imagePreloader.js:22-59 | a loaded key answers from the cache and a loading key shares its promise; only an unknown key starts a load, registering exactly one new promise |
| ImagePreloading.ImagePreloader.OnLoad | src/utils/imagePreloader.js:41-46 | the URL is cached under the key and the in-flight entry is removed |
| ImagePreloading.ImagePreloader.OnError | src/utils/imagePreloader.js:48-52 | the in-flight entry is removed and nothing is cached |
| ImagePreloading.ImagePreloader.IsImageLoaded | src/utils/imagePreloader.js:91-93 | a key is loaded when the cache holds a URL for it |
| ImagePreloading.ImagePreloader.GetImageUrl | src/utils/imagePreloader.js:91-98 | the URL is present if and only if the key is loaded |
| ImagePreloading.ImagePreloader.RequestAll | src/utils/imagePreloader.js:66-67 | calling preloadImage on each image in order leaves the registry, promise counter and load log as `RequestRun` gives them and caches nothing |
| ImagePreloading.ImagePreloader.SettleOne | src/utils/imagePreloader.js:41-52 | the in-flight load for the key ends, caching its URL unless the key is in `failing`; no other key, promise or log entry changes |
| ImagePreloading.ImagePreloader.SettleAll | src/utils/imagePreloader.js:68 | waiting on a batch ends each of its loads in order, leaving the caches as `SettleRun` gives them; no load starts |
| ImagePreloading.ImagePreloader.PreloadCriticalImages | src/utils/imagePreloader.js:62-75 | the result is `true` if and only if each critical key was cached before or did not fail; critical loads end and every other load stays in flight; earlier cache entries stay and only non-failing critical keys join, each holding the URL of the load already in flight for it or else of its critical image; the log gains one load per critical key that was neither cached nor in flight; the caches are those of `SettleRun` after `RequestRun` |
| ImagePreloading.ImagePreloader.PreloadSecondaryImages | src/utils/imagePreloader.js:78-88 | nothing is cached; loads in flight are kept and exactly the secondary keys not cached join them, each with its image's URL and a newly issued promise; the log gains one load per secondary key neither cached nor in flight; the registry is that of `RequestRun` |
| ImagePreloading.RequestRunFrame | src/utils/imagePreloader.js:22-59 | requesting a batch keeps every load in flight, adds one for each batch key that is not cached, and logs exactly the loads `NewLoads` lists |
| ImagePreloading.RequestRunNewEntries | src/utils/imagePreloader.js:30-57 | each load a batch starts is registered under a batch key, with the URL of the first image in the batch with that key and a promise issued during the batch |
| ImagePreloading.FirstSrc | src/utils/imagePreloader.js:26-28 | the URL of the first image in a list with a given key: later images with that key find its promise and start nothing |
| ImagePreloading.RequestThenSettleFrame | src/utils/imagePreloader.js:65-68 | requesting then awaiting a batch ends exactly its loads, keeps cached entries, and caches a batch key exactly when it was cached or did not fail, with the URL of its in-flight load or of its first image |
| ImagePreloading.SettleRunFrame | src/utils/imagePreloader.js:41-52 | settling a batch ends exactly its loads; a batch key is then loaded if and only if it was cached before or did not fail, a new entry holds its load's URL, and other keys keep their state |
| ImagePreloading.NewLoadsKeys | src/utils/imagePreloader.js:21-58 | a batch starts loads for exactly the keys that were neither cached nor in flight |
| ImagePreloading.NewLoadsOncePerKey | src/utils/imagePreloader.js:21-58 | a batch starts at most one load per key, even when the key is listed twice |
| ImagePreloading.FailedLoadIsRetried | src/utils/imagePreloader.js:27-57 | after a failed load, a new request for that key starts a second load |

## Left out

- Firestore transport, the unsubscribe function and offline caching are
  not modelled. The store is a map, and each call either applies at once
  or fails, chosen by `fault`.
- Snapshots with pending local writes are not modelled. In such a
  snapshot `serverTimestamp()` still reads `null`.
- Handlers run as single atomic steps. The model does not cover how
  pushes and awaited saves interleave, or several browsers writing at once.
- `timestamp` is modelled by the instant it denotes (`Num` milliseconds).
  `new Date().toISOString()` and the date parsing in the display
  comparator are not modelled. Any other value is an invalid date and
  compares as 0, including `null`, although `new Date(null)` is the valid
  epoch 0. No record the application writes has a `null` timestamp.
- MatchService.CreatedSeconds: a `createdAt` whose `seconds` is not a
  number counts as 0. JavaScript coerces such a value in the
  subtraction: to NaN in most cases, which `sort` reads as 0, but `true`
  gives 1 and `"5"` gives 5. The application's own writes always store a
  server timestamp there.
- Numbers are integers only. Floating point, `-0` and non-integer
  `toString` are not modelled. `parseInt` is modelled for decimal and
  `0x` text.
- MatchService.SaveFailsOnlyAsFalse: only a top-level `undefined` field
  is treated as refused. An `undefined` nested in an array or object (a
  roster hole left by an edit past the end) is not modelled.
- JsArray.SortInPlace: stability is not stated, although both
  `Array.prototype.sort` and this insertion sort keep equal elements in
  their old order. For a comparator that is not consistent (only invalid
  dates make the display comparator so), JavaScript leaves the order
  implementation-defined; the model still returns neighbour order.
- Document ids containing `/` are all rejected (`MatchService.DocKey`).
  `doc()` splits an id on `/` and drops empty segments. An odd number of
  extra segments (`a/b`) makes it throw, which the rejection matches. An
  even number of extra segments (`a/b/c`, a nested document) and leading
  or trailing slashes (`a/` is `a`) are not modelled.
- `===` between objects is modelled as structural equality. The ids
  compared are strings or numbers, for which the two agree.
- `preloadAll`, the staggered timers, `addResourceHints`, the `priority`
  argument and console output are not modelled. They only add delays,
  DOM hints and logging around the modelled methods.
- ImagePreloading.ImagePreloader.PreloadCriticalImages: `Promise.all`
  rejects at the first failed load, so the method can return `false` while
  other critical loads are still in flight. The model ends every critical
  load before returning. The result is the same; the state between the
  early return and the last load event is not modelled.
- MatchModal.FormState.Open: requires an edited record to be `Editable`:
  a `stadium` object whose `id` is neither `undefined` nor `null`, and two
  array rosters. For a record without a stadium id the source's open
  effect throws at `initialData.stadium.id.toString()`
  (src/components/MatchModal/MatchModal.jsx:27), and a missing roster
  throws at its spread (lines 28-29). A roster that is a string would
  spread into characters. None of these are modelled. Every record the
  application writes has a stadium object and two array rosters.
- Not modelled: the form's Escape and close animation (`handleClose`,
  300 ms), scrolling, the focus trap, swipe-to-close and the Safari
  tweaks. The delayed `onClose` is `AppView.App.HandleModalClose`.
- Not modelled: the card's touch pulse, tooltip and formation view, and
  the App's show/hide toggle, formation modal and loading screen. These
  are presentation only.
- The stadium catalog (`stadiums.json`) is not part of this model. It is
  a parameter of the form, with every capacity even: an odd capacity
  would make `Array(n)` throw.
- Not modelled: the catch branch of `handleCreateMatch`,
  `handleDeleteMatch` and `handleUpdateScore`. Those branches are
  unreachable, because the repository functions never reject.
