# Lumina gallery core in Dafny

Lumina is a live-wallpaper gallery. At start-up it generates a synthetic
catalog of 6000 remote video wallpapers: six categories of a thousand records
each. It appends the local uploads stored in the browser. The grid shows the
catalog through a category filter and a free-text search. One wallpaper is
"applied" and plays on a phone mock-up. Settings are language, mute and fit
mode, plus the applied wallpaper's id. They persist in browser storage, and so
do the uploaded records.

This project models that core and proves properties of it:

- `types.dfy` (module `Types`): languages, fit modes, wallpapers and settings.
- `text.dfy` (module `Text`): the string operations the app relies on. These
  are ASCII lower-casing, `trim`, `includes`, decimal formatting of an index,
  capitalising, and cutting a file name at its first dot.
- `sequences.dfy` (module `Sequences`): a stable filter (`Keep`, the model of
  `Array.prototype.filter`) and the flattening of equal-sized blocks, with
  their lemmas.
- `catalog.dfy` (module `Catalog`): `generateLibrary` as an imperative method
  with loop invariants, proved equal to a specification function `Library`.
  The category list, pools and per-category count are parameters.
- `filter.dfy` (module `Filter`): the two-stage grid filter and the resolution
  of the current wallpaper.
- `storage.dfy` (module `Storage`): the two storage slots, what start-up reads
  from them and what an upload writes to them.
- `session.dfy` (module `Session`): the screen's state as a class `Gallery`
  whose methods are the screen's event handlers.

## Model

| member | source | states |
|---|---|---|
| Types.LanguageFromCode | types.ts:2-6 | the only codes are "en", "pt" and "es"; each names exactly one language and is the inverse of `Code` |
| Types.FitModeFromName | types.ts:8 | the only fit modes are "cover", "contain" and "fill"; each literal names exactly one mode, inverse of `FitModeName` |
| Types.IsLocal | App.tsx:118 | the `w => w.isLocal` test holds only for a flag that is present and true; `PersistedLocalsMembership` and `LibraryNotLocal` state which records it selects |
| Text.Lower | App.tsx:133-137 | `toLowerCase` keeps the length, leaves no upper-case letter, shifts exactly the upper-case letters and keeps every other character |
| Text.Trim | App.tsx:132-133 | `trim` yields the slice of the input that starts at its first non-space character and is followed only by white space; it is empty exactly when the input is blank; a non-empty result starts and ends with a non-space |
| Text.TrimLowerCommute | App.tsx:132-133 | trimming and lower-casing commute, so the blank test on the raw query agrees with the normalised query |
| Text.Includes | App.tsx:136-137 | `includes` holds exactly when the needle occurs at some position of the haystack |
| Text.FirstCharMisses | App.tsx:135-136 | a needle whose first character matches no lower-cased character of the text occurs nowhere in the lower-cased text |
| Text.LowerNoUpper | App.tsx:133 | lower-casing leaves a string without upper-case letters unchanged |
| Text.TrimIdempotent | App.tsx:133 | trimming a trimmed string changes nothing |
| Text.TrimNoSpace | App.tsx:133 | a string without white space is its own trimmed form |
| Text.NatToString | App.tsx:55 | an index renders as a non-empty string of digits without leading zero whose value is the index |
| Text.NatToStringInjective | App.tsx:55 | different indices render differently |
| Text.Capitalize | App.tsx:60 | capitalising changes only the first character, and only its case: a lower-case first letter becomes upper-case, any other first character is kept |
| Text.BeforeFirstDot | App.tsx:111 | `split('.')[0]` is the longest dot-free prefix of the name; when shorter than the name, a dot follows it |
| Sequences.Keep | App.tsx:129 | a filter result is no longer than its input and every kept element passes the test |
| Sequences.KeepMembership | App.tsx:129 | an element is kept exactly when it is in the input and passes the test |
| Sequences.KeepIsSubsequence | App.tsx:129 | a filter keeps the input's order: its result embeds in the input at increasing positions |
| Sequences.KeepKeep | App.tsx:128-137 | two filters in a row are one filter by the conjunction of their tests |
| Sequences.KeepComplement | App.tsx:129 | filtering by a test and by its negation splits the input's length between the two results |
| Catalog.PoolFor | App.tsx:52 | a category draws from its own pool, or from the nature pool when it has none; the pool is never empty |
| Catalog.RealCategories | App.tsx:51 | the generated categories are those of the bar without its first entry, "all" |
| Catalog.GeneratedIdRoundTrip | App.tsx:55 | an id `c-i` splits back at its last dash into the category `c` and the index `i` |
| Catalog.GeneratedIdInjective | App.tsx:55 | two generated ids coincide only for the same category and index |
| Catalog.Entry | App.tsx:54-63 | the record pushed for a category and index; `EntryIsRemote`, `EntryId`, `EntryTags` and `EntryTitle` state its fields |
| Catalog.EntryIsRemote | App.tsx:54-62 | a generated record has `isLocal` false, plays `pool[i % pool.length]` and has a thumbnail keyed by its id |
| Catalog.EntryId | App.tsx:55-56 | a generated record's id names its category and index |
| Catalog.EntryTags | App.tsx:61 | the tags are exactly the category, "premium", "4k", "ultra-hd", then "exclusive" iff the index is a multiple of ten and "popular" otherwise |
| Catalog.EntryTitle | App.tsx:60 | the lower-cased title is the lower-cased category, " #" and the index; the title starts with the category's first letter upper-cased, followed by the rest of the category as written |
| Catalog.Block | App.tsx:53-63 | a category's records are `n` records, the one at position `j` being that category's record of index `j + 1` |
| Catalog.AppendCategory | App.tsx:52-63 | the counting loop appends exactly that category's block to what was there |
| Catalog.GenerateLibrary | App.tsx:47-67 | the generator's result is the concatenation of the blocks of the categories after "all", in bar order |
| Catalog.LibraryLength | App.tsx:49-53 | the catalog holds (number of generated categories) × (items per category) records |
| Catalog.LibraryAt | App.tsx:51-63 | the record of category number `ci` and index `j + 1` sits at position `ci * n + j`: category-major, then index-ascending |
| Catalog.LibraryLocate | App.tsx:51-63 | every position holds the record of some category and index in range, at the place `LibraryAt` gives |
| Catalog.LibraryMember | App.tsx:51-63 | every catalog record is the record its id names, for a category of the list and an index from 1 to `n` |
| Catalog.LibraryIdCategory | App.tsx:55 | every catalog id splits into one of the categories and an index |
| Catalog.LibraryIdAt | App.tsx:55 | the id at position `ci * n + j` names category `ci` and index `j + 1` |
| Catalog.LibraryIdsDistinct | App.tsx:55 | with distinct categories no two catalog records share an id |
| Catalog.LibraryNotLocal | App.tsx:62 | no catalog record is local |
| Catalog.ShippedLibrary | App.tsx:9-69 | with the shipped constants the pools are valid and the generated categories are the six real ones; the catalog has 6000 records with unique ids, none local |
| Filter.FilteredWallpapers | App.tsx:125-141 | `filteredWallpapers`: the category stage, then the search stage; `FilteredIsKeep`, `FilteredIsSubsequence` and `FilteredMembership` state what it shows |
| Filter.CategoryStage | App.tsx:128-130 | the category stage keeps only records tagged with the category, unless the category is "all" |
| Filter.AnyTagIncludes | App.tsx:136 | `tags.some(...)` holds exactly when some lower-cased tag contains the query |
| Filter.MatchesQuery | App.tsx:135-136 | a record matches when its lower-cased title or one of its lower-cased tags contains the query; `FilteredMembership`, `PopularEntry` and `UploadFoundByName` state it for the list, the catalog and an upload |
| Filter.Blank | App.tsx:132 | the search stage is off when the trimmed query is empty; `BlankLower`, `FilteredIdentity` and `PopularQuery` state it |
| Filter.NormalQuery | App.tsx:133 | the query is lower-cased and trimmed; `SearchIgnoresCase`, `SearchIgnoresSurroundingSpace` and `PopularQuery` state its effect |
| Filter.SearchStage | App.tsx:132-138 | the search stage keeps only records matching the normalised query, unless the query is blank |
| Filter.FilteredIsKeep | App.tsx:125-141 | the two stages together are one stable filter by the conjunction of the category test and the search test |
| Filter.FilteredIsSubsequence | App.tsx:125-141 | the grid shows records of the list in the list's order |
| Filter.FilteredMembership | App.tsx:125-141 | a record is shown exactly when it is in the list, carries the category tag exactly (case-sensitive) unless the category is "all", and its lower-cased title or some lower-cased tag contains the trimmed lower-cased query unless the query is blank |
| Filter.FilteredIdentity | App.tsx:125-141 | category "all" with a blank query shows the whole list, in order |
| Filter.BlankLower | App.tsx:132-133 | a query is blank exactly when its lower-cased form is |
| Filter.SearchIgnoresCase | App.tsx:133-137 | queries that lower-case alike show the same records |
| Filter.SearchIgnoresSurroundingSpace | App.tsx:132-133 | white space around the query changes nothing |
| Filter.FindById | App.tsx:143 | `find` yields the first position whose id equals the active id, or nothing when no record has it or the id is null |
| Filter.CurrentWallpaper | App.tsx:143 | the current wallpaper is missing only for an empty list; it is a record of the list; when some record carries the active id it is the first such record; when the id is null or no record carries it, it is the first record of the list |
| Filter.CurrentOfDistinct | App.tsx:143 | when ids are unique, the current wallpaper for a record's id is that record |
| Filter.LibraryCategory | App.tsx:128-130 | filtering the catalog by one of its categories gives exactly that category's block, `n` records in index order |
| Filter.ExclusiveEntry | App.tsx:61 | a generated record is tagged "exclusive" exactly when its index is a multiple of ten |
| Filter.ExclusiveCount | App.tsx:53-61 | `n / 10` of a category's first `n` records are tagged "exclusive" |
| Filter.CategoryExclusive | App.tsx:128-130 | when a category's stage is its block of `n` records, it shows `n` records, `n / 10` of them exclusive |
| Filter.ShippedCategory | App.tsx:36-63 | with the shipped constants each of the six real categories' stage is its block of the catalog |
| Filter.ShippedCategoryCounts | App.tsx:49-61 | with the shipped constants each category button shows 1000 records, 100 of them exclusive |
| Filter.TitleMisses | App.tsx:135 | a query of lower-case letters is not found in a lower-cased title "name #digits" when it is longer than the name, or as long and different |
| Filter.NonLetterBlocks | App.tsx:135-136 | a query of lower-case letters is not found at a position whose window holds another character |
| Filter.PopularInTags | App.tsx:136 | among a generated record's lower-cased tags, "popular" is found exactly in the rank tag "popular", when the category tag does not contain it |
| Filter.PopularEntry | App.tsx:60-61 | a search for "popular" matches a generated record exactly when its index is not a multiple of ten, for a category name that does not contain the word |
| Filter.PopularCount | App.tsx:53-61 | a search for "popular" in the first `n` records of a category other than "exclusive" finds `n - n / 10` of them |
| Filter.PopularQuery | App.tsx:132-133 | the query "popular" is not blank and normalises to itself |
| Filter.ShippedNamesMissPopular | App.tsx:36-44 | no shipped category name contains "popular" |
| Filter.CategoryThenPopular | App.tsx:125-141 | when a category's stage is its block of `n` records, adding the search "popular" shows `n - n / 10` records |
| Filter.ShippedPopularCounts | App.tsx:125-141 | with the shipped constants any category button followed by the search "popular" shows 900 records, e.g. "nature" and "popular" |
| Storage.LoadSettings | App.tsx:72-80 | start-up uses the stored settings when the slot holds a non-empty value, else the defaults (English, muted, cover, "nature-1") |
| Storage.Normalize | App.tsx:85 | a restored record keeps every field, with tags defaulted to the empty list when absent |
| Storage.ToStored | App.tsx:119 | a written record reads back as itself |
| Storage.NormalizeAll | App.tsx:85 | restoring normalises each stored record in place |
| Storage.LoadLocals | App.tsx:83-85 | start-up restores nothing from an absent or empty slot, else the stored records, normalised, in stored order |
| Storage.LoadWallpapers | App.tsx:82-86 | the list at start-up is the catalog followed by the restored records |
| Storage.PersistLocals | App.tsx:118-119 | an upload writes a slot holding only records whose `isLocal` is true |
| Storage.PersistedLocalsMembership | App.tsx:118-119 | a record is written exactly when it is in the list and its `isLocal` is present and true; an absent flag counts as not local |
| Storage.ReloadAfterPersist | App.tsx:83-85 | reading back what an upload wrote gives the catalog followed by the local records of the list, in order |
| Session.UploadId | App.tsx:108 | an upload id is "local-" and the clock reading; `UploadIdParses` and `UploadIdFresh` state that it parses back and does not clash with catalog ids |
| Session.UploadIdParses | App.tsx:108 | an upload id is "local-" followed by the clock reading, and splits back into both |
| Session.UploadedWallpaper | App.tsx:106-113 | the new record is local, plays the file's object URL, has id "local-{now}", a dot-free prefix of the file name as title, and tags "local", "custom" and the lower-cased file name |
| Session.UploadFoundByName | App.tsx:112 | an uploaded record matches any search for part of its file name, in any case |
| Session.UploadIdFresh | App.tsx:108 | an upload id never clashes with a catalog id while "local" is not a category |
| Session.LocalsOfSession | App.tsx:118 | the local records of the list are this session's uploads followed by the local restored records |
| Session.PrependUpload | App.tsx:115-119 | prepending an upload keeps the list's shape, and the slot written reads back as catalog, uploads, then local restored records |
| Session.Gallery.constructor | App.tsx:72-97 | start-up generates the catalog, loads settings and list from the slots, starts with category "all", an empty query and no preview, and writes the settings back on mount; no upload is recorded yet and the restored records are what the wallpaper slot held |
| Session.Gallery.Filtered | App.tsx:125-141 | the grid is an order-preserving subsequence of the list |
| Session.Gallery.Current | App.tsx:143 | in a valid session there is always a current wallpaper, taken from the list |
| Session.Gallery.SaveSettings | App.tsx:95-97 | a settings change is written to the settings slot in full; nothing else changes |
| Session.Gallery.SetLanguage | App.tsx:99-101 | the language changes and no other field, and the settings slot follows |
| Session.Gallery.ToggleMute | App.tsx:335 | `muted` is negated and no other field changes, and the settings slot follows |
| Session.Gallery.SetFitMode | App.tsx:349 | the fit mode is replaced and no other field changes, and the settings slot follows |
| Session.Gallery.SetSearchQuery | App.tsx:166 | the query is replaced; nothing else changes |
| Session.Gallery.SelectCategory | App.tsx:230-234 | the category is selected and the search is cleared, so the grid is that category's stage of the list |
| Session.Gallery.ResetFilters | App.tsx:258-261 | the search is cleared and "all" selected, so the grid is the whole list |
| Session.Gallery.OpenPreview | App.tsx:271-278 | clicking a card of the grid previews that record, which is a record of the list; nothing else changes |
| Session.Gallery.ClosePreview | App.tsx:419-428 | cancel and dismiss close the preview and leave the settings unchanged |
| Session.Gallery.Apply | App.tsx:405-409 | the previewed record's id becomes the active id and the preview closes; the previewed record is always one of the list, so with unique ids it becomes the current wallpaper |
| Session.Gallery.Upload | App.tsx:103-123 | with no file nothing changes. With a file: the new record goes in front of the list; the slot holds exactly the local records of the new list; the preview opens on the new record; settings, query and category are unchanged; the new record is added in front of the session's uploads and the restored records stay as they were; reading the slot back gives the catalog, this session's uploads and the local restored records |

`Session.Gallery.Valid` is the class invariant. It holds after start-up and
after every handler. It says:

- the settings slot holds the current settings;
- the list is this session's uploads (all local), then the catalog (6000
  records, none local), then the restored records;
- before any upload, the restored records are what the wallpaper slot held;
- after an upload, the slot holds exactly the list's local records.
- a previewed record is a record of the list.

## Left out

- Rendering, styling, icons, translations and the phone mock-up are not part
  of this model. The components `Logo` and `PhonePreview` and the
  `translations` module are not part of this model.
- JSON serialisation is not modelled. A slot holds a typed value, is absent,
  or holds the empty string.
- Malformed stored JSON is not modelled. The app calls `JSON.parse` without a
  guard, so a corrupt settings or wallpaper record makes start-up throw; it
  does not fall back to defaults; the model follows the code.
- Storage.LoadSettings: a stored settings record is used as stored. A
  parsed object with missing or ill-typed fields, which `JSON.parse` would let
  through, cannot be expressed.
- The clock (`Date.now()`), `Math.random()` and `URL.createObjectURL` are
  parameters of `Upload`. The decimal rendering of the random number is
  a free string parameter. Failures of the storage write are not modelled.
- Session.Gallery.Upload: only the file's name is modelled. The upload takes
  the first picked file, as the source does.
- `window.scrollTo` and the file-picker click are browser side effects, not
  modelled.
- React scheduling is not modelled. State updates apply immediately and in
  order. `useMemo` is a cache, so the grid and the current wallpaper are
  functions of the current fields.
- Text.Lower: upper-casing and lower-casing cover ASCII letters only. Full
  Unicode case mapping is not modelled. Strings are sequences of Unicode
  scalar values, not UTF-16 code units.
- Text.Trim: white space is the ECMAScript set of white-space and
  line-terminator characters, listed explicitly.
- Filter.CurrentWallpaper: the source would throw on an empty list when it
  reads the record's URL. The model returns no wallpaper instead. A session's
  list is never empty, because it always contains the 6000 catalog records.
- Session.Gallery.Apply requires an open preview, because the apply button
  exists only while one is open.
- The asset URLs are kept as literals but are opaque to the proofs. The
  thumbnail URL format is kept only for its dependence on the id.
- The count of records that a search for "EXCLUSIVE" finds in the shipped
  catalog is not proved. What is proved is the count of records tagged
  "exclusive": 100 per category, by ExclusiveCount and ShippedCategoryCounts.
  The combination of a category and a search is proved for the search
  "popular": 900 records for each category, by ShippedPopularCounts.
- Id uniqueness is proved for the catalog only. It is not an invariant of
  the session: two uploads with the same clock reading, or restored records
  repeating an id, would share an id. The source does not prevent this.
