# Dog breed viewer — verified model of the favourites store and its helpers

This project models, in Dafny, the parts of the dog breed viewer whose
behaviour can be stated exactly:

- **The `favourites` table** (`backend/src/database.ts`): rows
  `(id, image_url, breed, created_at)` with `image_url UNIQUE NOT NULL` and an
  `AUTOINCREMENT` id, and the three prepared statements — list ordered by
  `created_at DESC`, insert, delete by `image_url`. The table is the class
  `Database.FavouritesTable`: its rows in insertion order, the AUTOINCREMENT
  counter `nextId`, and a clock standing for `CURRENT_TIMESTAMP` that only
  moves forward. `Valid()` is the table invariant: URLs unique, ids strictly
  increasing and below `nextId`, every id ever handed out (including those of
  deleted rows) below `nextId`, timestamps non-decreasing in insertion order.
  The statements are methods whose contracts give the new rows in terms of
  the old ones through the value-level functions `Without` and `Urls`.
- **The `/api/favourites` router** (`backend/src/routes/favourites.ts`): the
  two zod schemas as pure functions from a request body to the validated
  input or a list of issues, and the GET, POST and DELETE handlers as methods
  over the table giving the status code and JSON body. Validation happens
  before the table is touched; a duplicate URL answers 500, as the code does;
  a delete that changed no row answers 404.
- **`classNames`** (`frontend/src/utils/classNames.ts`): keep the truthy
  arguments and join them with single spaces.
- **The `useAppStore` zustand store** (`frontend/src/store/index.ts`): a class
  with the three fields `searchQuery`, `selectedBreed`, `currentTab`; each
  setter calls zustand's `set`, modelled as a shallow merge of a partial
  state. `currentTab` is a two-valued datatype, so it is always `'browse'` or
  `'favourites'`.
- **The breed search filter** (`frontend/src/App.tsx`, `filteredBreeds`):
  lower-case and trim the query, then keep the breed map's keys that contain
  it, in key order.

Environment inputs are parameters: `tick` (how far the clock moved before an
insert), `fault` (whether the database engine fails a statement for a reason
outside the model, such as a locked or unreadable file) and `isUrl` (zod's URL
check, left uninterpreted).

Files: `outcomes.dfy` (Option and Result), `database.dfy`,
`favourites_router.dfy`, `class_names.dfy`, `app_store.dfy`,
`breed_filter.dfy`.

A duplicate insert surfaces as a generic 500 `'Failed to add favourite'`, as
the handler does (backend/src/routes/favourites.ts:28,34); it does not tell a
conflict apart from other failures.

## Model

| member | source | states |
|---|---|---|
| `Database.Without` | backend/src/database.ts:29 | deleting by image URL leaves no row with that URL, keeps every other URL, and only drops rows |
| `Database.Reversed` | backend/src/database.ts:27 | the rows back to front: same length, element i is row n-1-i; the order `List` returns, whose `created_at DESC` order and completeness `ReversedListing` proves |
| `Database.WithoutAbsent` | backend/src/database.ts:29 | deleting a URL no row has leaves the rows unchanged |
| `Database.WithoutUniqueAt` | backend/src/database.ts:14 | with unique URLs, deleting row i's URL removes exactly row i and keeps the others in order |
| `Database.WithoutCount` | backend/src/database.ts:29 | with unique URLs, a delete removes one row when the URL is present and none when it is absent |
| `Database.WithoutUnique` | backend/src/database.ts:14 | deleting keeps image URLs unique |
| `Database.WithoutOldestFirst` | backend/src/database.ts:16 | deleting keeps the remaining rows in creation-time order |
| `Database.WithoutIdsAscending` | backend/src/database.ts:13 | deleting keeps ids strictly increasing |
| `Database.AddThenRemoveRestores` | backend/src/database.ts:28-29 | inserting a new URL and then deleting it gives back exactly the previous rows |
| `Database.ReversedListing` | backend/src/database.ts:27 | rows kept oldest first, read back to front, are in `created_at DESC` order and hold every row exactly once |
| `Database.FavouritesTable.Valid` | backend/src/database.ts:13-16 | the table invariant every method keeps: `image_url` values are `UNIQUE`; rows are kept in insertion order with non-decreasing `created_at` no later than the clock; `AUTOINCREMENT` ids ascend and every id ever issued is below the next one |
| `Database.FavouritesTable.constructor` | backend/src/database.ts:11-18 | a fresh table is empty, valid, and its first id will be 1 |
| `Database.FavouritesTable.Add` | backend/src/database.ts:28 | a new URL appends exactly one row with that URL and breed, an id above every id ever issued and the current timestamp; a present URL fails with the unique-constraint error and changes nothing; an engine failure changes nothing |
| `Database.FavouritesTable.Remove` | backend/src/database.ts:29 | the rows become `Without(old rows, url)` and the change count is 1 if the URL was present, else 0; counter and clock unchanged |
| `Database.FavouritesTable.List` | backend/src/database.ts:27 | returns every row exactly once (same multiset), newest first, and changes nothing; an engine failure is reported |
| `Database.AddThenRemove` | backend/src/database.ts:28-29 | on the table object, an insert of a new URL followed by its delete restores the rows while the id counter has advanced by one |
| `FavouritesRouter.MatchesAddSchema` | backend/src/routes/favourites.ts:7-10 | what `addFavouriteSchema` accepts, stated directly: an object whose `imageUrl` is a string `isUrl` accepts and whose `breed` is a string of length at least 1; `ParseAddFavourite`'s contract proves the parser succeeds exactly on these bodies |
| `FavouritesRouter.MatchesRemoveSchema` | backend/src/routes/favourites.ts:12-14 | what `removeFavouriteSchema` accepts: an object whose `imageUrl` is a string `isUrl` accepts; `ParseRemoveFavourite`'s contract proves the parser succeeds exactly on these bodies |
| `FavouritesRouter.ImageUrlIssues` | backend/src/routes/favourites.ts:8 | `z.string().url()` on `imageUrl`: no issue for a URL string, `invalid_string` for another string, `invalid_type` for a missing or non-string value; its properties are carried by `ParseAddFavourite` and `ParseRemoveFavourite` |
| `FavouritesRouter.BreedIssues` | backend/src/routes/favourites.ts:9 | `z.string().min(1)` on `breed`: no issue for a non-empty string, `too_small` for `''`, `invalid_type` otherwise; its properties are carried by `ParseAddFavourite` |
| `FavouritesRouter.ParseAddFavourite` | backend/src/routes/favourites.ts:7-10 | succeeds exactly when `imageUrl` is a URL string and `breed` a non-empty string, returning both; otherwise reports at least one issue; for an object body every issue is on `imageUrl` or `breed`, with `invalid_string` (the URL check) and `too_small` raised exactly for their causes; a body that is not an object gets one `invalid_type` issue |
| `FavouritesRouter.ParseRemoveFavourite` | backend/src/routes/favourites.ts:12-14 | succeeds exactly when `imageUrl` is a URL string, returning it; otherwise reports exactly one issue, which for an object body is on `imageUrl` (`invalid_string` for a non-URL string, `invalid_type` otherwise) |
| `FavouritesRouter.HandleGet` | backend/src/routes/favourites.ts:16-23 | 200 with every row once, newest first, or 500 `'Failed to fetch favourites'` on an engine failure; never changes the table |
| `FavouritesRouter.HandlePost` | backend/src/routes/favourites.ts:25-36 | invalid body: 400 with the issues and the table untouched (no statement run); valid and new: one insert, 201 `'Favourite added'`, row appended, id counter up by one and the clock advanced by `tick`; valid and duplicate or engine failure: one insert attempted, 500 `'Failed to add favourite'`, rows, counter and clock unchanged |
| `FavouritesRouter.HandleDelete` | backend/src/routes/favourites.ts:38-52 | invalid body: 400 and the table untouched; absent URL: 404 `'Favourite not found'`, rows unchanged; present URL: 200 `'Favourite removed'`, exactly that row gone; engine failure: 500 `'Failed to remove favourite'`; a valid body leaves the id counter and the clock as they were; at most one statement run |
| `FavouritesRouter.AddListRemoveList` | backend/src/routes/favourites.ts:16-52 | on an empty table, POST then GET then DELETE then GET of one image answers 201, the one row, 200, and an empty list |
| `ClassNames.Truthy` | frontend/src/utils/classNames.ts:2 | `Boolean` on the admitted arguments: only a non-empty string is truthy; used by `Kept`, `FalsyDropped` and `SingleTruthy` |
| `ClassNames.Join` | frontend/src/utils/classNames.ts:2 | `join(' ')`: the parts with one space between each two; `JoinLength` gives its length, `JoinAppend` how it splits over concatenation, and `SplitJoin` proves splitting on spaces undoes it |
| `ClassNames.ClassNames` | frontend/src/utils/classNames.ts:1-3 | `classNames` itself, `Join(Kept(classes))`; its properties are the lemmas `NoArguments`, `SingleTruthy`, `FalsyDropped`, `Idempotent`, `OutputLength`, `ClassNamesAppend` and `ClassNamesSplit` |
| `ClassNames.Kept` | frontend/src/utils/classNames.ts:2 | the filter keeps only non-empty strings and never more values than it was given |
| `ClassNames.KeptAppend` | frontend/src/utils/classNames.ts:2 | each argument is kept or dropped on its own, in its original position |
| `ClassNames.NoArguments` | frontend/src/utils/classNames.test.ts:25-28 | with no arguments the result is the empty string |
| `ClassNames.SingleTruthy` | frontend/src/utils/classNames.ts:2 | a single truthy string is returned unchanged |
| `ClassNames.FalsyDropped` | frontend/src/utils/classNames.ts:2 | `false`, `undefined`, `null` and `''` anywhere in the arguments leave no trace in the output |
| `ClassNames.FiltersFalsyValues` | frontend/src/utils/classNames.test.ts:20-23 | `('valid', '', null, undefined, false, 'another-valid')` gives `'valid another-valid'` |
| `ClassNames.Idempotent` | frontend/src/utils/classNames.ts:2 | applying `classNames` to its own output gives that output |
| `ClassNames.JoinLength` | frontend/src/utils/classNames.ts:2 | joining k >= 1 parts gives their total length plus k - 1 |
| `ClassNames.OutputLength` | frontend/src/utils/classNames.ts:2 | with k >= 1 kept arguments, the output length is their total length plus k - 1 |
| `ClassNames.SplitJoin` | frontend/src/utils/classNames.ts:2 | splitting on spaces undoes joining with spaces when no part holds a space |
| `ClassNames.ClassNamesSplit` | frontend/src/utils/classNames.ts:2 | when no kept argument contains a space, splitting the output on spaces gives back exactly the truthy arguments, in their original order |
| `ClassNames.JoinAppend` | frontend/src/utils/classNames.ts:2 | for all non-empty runs of parts, spaces inside parts included, joining their concatenation puts exactly one space between the two joins |
| `ClassNames.ClassNamesAppend` | frontend/src/utils/classNames.ts:2 | for any arguments, spaces inside them included: when both halves keep something, the output for their concatenation is each half's output separated by one space; with `SingleTruthy` and `FalsyDropped` this fixes the output as the truthy arguments, in order, joined by single spaces |
| `ClassNames.BreedPillClasses` | frontend/src/components/BreedList.tsx:13-16 | the breed-list button's call yields its fixed class string, one space, then the `active` or inactive class string, each as written |
| `AppStore.Merge` | frontend/src/store/index.ts:12 | zustand's `set` as a shallow merge: the fields the partial state names take its values, the others keep theirs; `MergeCommutes`, `MergeIdempotent` and `UpdatesPersistTogether` carry its properties and `Store.Set` is proved against it |
| `AppStore.MergeCommutes` | frontend/src/store/index.ts:16-18 | updates of different fields commute |
| `AppStore.MergeIdempotent` | frontend/src/store/index.ts:16-18 | applying the same update twice equals applying it once |
| `AppStore.UpdatesPersistTogether` | frontend/src/store/index.ts:16-18 | one update of each field leaves all three new values together, whatever the earlier state |
| `AppStore.Store.constructor` | frontend/src/store/index.ts:13-15 | the initial state is `''`, no breed, `'browse'` |
| `AppStore.Store.Set` | frontend/src/store/index.ts:12 | `set` overwrites the fields the partial state names and keeps the others |
| `AppStore.Store.SetSearchQuery` | frontend/src/store/index.ts:16 | `searchQuery` becomes exactly the argument, the empty string included; the other fields are unchanged |
| `AppStore.Store.SetSelectedBreed` | frontend/src/store/index.ts:17 | `selectedBreed` becomes the argument, `null` included; the other fields are unchanged |
| `AppStore.Store.SetCurrentTab` | frontend/src/store/index.ts:18 | `currentTab` becomes the argument; the other fields are unchanged |
| `AppStore.UpdateAllFields` | frontend/src/store/index.test.ts:81-93 | a fresh store after one call of each setter holds all three values |
| `AppStore.SelectThenClearBreed` | frontend/src/store/index.test.ts:53-65 | selecting a breed and then `null` leaves the store in its initial state |
| `BreedFilter.ToLower` | frontend/src/App.tsx:39 | lower-casing keeps the length and lower-cases each character on its own |
| `BreedFilter.TrimStart` | frontend/src/App.tsx:39 | what is kept is a suffix that starts with a non-white-space character, after white space only |
| `BreedFilter.TrimEnd` | frontend/src/App.tsx:39 | what is kept is a prefix that ends with a non-white-space character, before white space only |
| `BreedFilter.Keys` | frontend/src/App.tsx:40 | `Object.keys(breeds)`: the breed names of the map's entries, in entry order; used by `FilteredBreeds`, `BlankQueryKeepsAll` and `KeysNotLowerCased` |
| `BreedFilter.Trim` | frontend/src/App.tsx:39 | `trim()` as `TrimEnd` after `TrimStart`, whose contracts characterise each side; `TrimPadded` proves it ignores added white space |
| `BreedFilter.NormalizeQuery` | frontend/src/App.tsx:39 | `searchQuery.toLowerCase().trim()`; its effect is carried by `QueryNormalized` (queries differing only in letter case and white-space padding filter alike) and `BlankQueryKeepsAll` (a blank query keeps every key) |
| `BreedFilter.Includes` | frontend/src/App.tsx:40 | `String.prototype.includes`, defined by trying each start position; `IncludesAt` proves it equivalent to an occurrence at some index and `IncludesTooLong` that a longer query never occurs |
| `BreedFilter.IncludesAt` | frontend/src/App.tsx:40 | `includes` holds exactly when the query occurs at some position of the key |
| `BreedFilter.FilterKeys` | frontend/src/App.tsx:40 | every kept key is a key that contains the query, and no key containing it is dropped |
| `BreedFilter.FilteredBreeds` | frontend/src/App.tsx:37-41 | before the breeds are loaded the list is empty; every listed breed contains the lower-cased, trimmed query |
| `BreedFilter.FilterKeysSubsequence` | frontend/src/App.tsx:40 | the kept keys appear in key order |
| `BreedFilter.FilterKeysCounts` | frontend/src/App.tsx:40 | each key is kept as often as it occurs if it contains the query, and never otherwise |
| `BreedFilter.FilterKeysEmptyQuery` | frontend/src/App.tsx:40 | an empty query keeps every key |
| `BreedFilter.BlankQueryKeepsAll` | frontend/src/App.tsx:39-40 | an empty or white-space-only query lists every key of a loaded map |
| `BreedFilter.TrimPadded` | frontend/src/App.tsx:39 | trimming ignores white space added on either side |
| `BreedFilter.QueryNormalized` | frontend/src/App.tsx:39-40 | queries that differ only in letter case or surrounding white space select the same breeds |
| `BreedFilter.KeysNotLowerCased` | frontend/src/App.tsx:40 | keys are matched as stored: the key `Akita` is not found by the query `Akita` |

## Left out

- Opening the database (backend/src/database.ts:5-9: directory creation, path joining, opening the file): only the table's semantics are modelled.
- `CURRENT_TIMESTAMP` is a natural-number clock advanced by `tick` at each insert, not a second-resolution text timestamp; the clock does not move on failed statements.
- Engine failures other than the unique constraint (locking, I/O, a corrupt file) are the boolean `fault`; a failing statement is atomic and changes no row.
- Database.FavouritesTable.List: promises what `ORDER BY created_at DESC` promises (newest first, every row once), not the order SQLite happens to give rows with equal timestamps, which it leaves unspecified.
- Of better-sqlite3's run result only one field is returned: the change count of a delete (which the DELETE handler reads) and the new id (`lastInsertRowid`) of an insert (which the POST handler ignores); the rest of the run result is not modelled.
- The ghost statement log records the write statements (insert, delete); reads are not logged, and GET runs exactly one read.
- zod's URL check is the parameter `isUrl`; zod's issue objects keep only their path and code (messages and expected/received types are left out), and a request body is reduced to the two properties the schemas read, each missing, a string, or another JSON value.
- Express, helmet, cors, morgan, the health route and `listen` (backend/src/index.ts) are process plumbing and not modelled.
- The HTTP clients (frontend/src/api/dogApi.ts, frontend/src/api/favouritesApi.ts), the query hooks and their caching and invalidation (frontend/src/hooks/useApi.ts), lazy loading (frontend/src/hooks/useLazyLoading.ts) and all JSX components are network I/O or UI and not modelled.
- `classNames` arguments are strings, `false`, `undefined` and `null`; other JavaScript values (numbers, arrays) are outside its declared parameter type and not modelled.
- Lower-casing and trimming are ASCII only: JavaScript's `toLowerCase` and `trim` also act on non-ASCII letters and on Unicode spaces such as U+00A0 and U+FEFF.
- The breed map is given as its entries in `Object.keys` order; JavaScript's placing of integer-like keys first is not modelled.
