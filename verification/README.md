# MedScan medicine lookup, modelled in Dafny

MedScan looks up a medicine by name in the openFDA drug-label API and shows a
plain-language summary. This project models the logic at its core:

- **Client script** (`script.js`):
  - the jargon simplifier `simplifyJargon`, with its 39-entry `jargonMap`;
  - the three-tier safety badge `getSafetyBadge`;
  - the recent-searches list update in `saveToRecent`;
  - the brand / generic / substance fallback chain of `searchMedicine`;
  - the label-to-view mapping `parseMedicineData`.
- **Server routes** (`backend/routes/medicineRoutes.js`):
  - `GET /search/:name`: a case-insensitive cache lookup. A hit bumps the document's `searchCount`. A miss runs the fallback chain and stores a new document.
  - `GET /popular`: the ten most-searched documents.
- **Document schema** (`backend/models/Medicine.js`): the `Medicine` schema's required `name`, its `"Not available"` defaults and its `searchCount` default of 1.

Everything is a pure function over immutable values:

- The document collection is a sequence of records in insertion order.
- The label API is a function parameter, `Fetch = (SearchField, string) -> Option<Label>`. It returns the first label found for a field and a value, or nothing.
- A label (`Label.Label`) keeps, for each field the code reads, the array of strings the API returns. An absent field is the empty array.
- JavaScript truthiness of `x?.[0]` is modelled by `Label.Truthy`: present and not the empty string.

Modules:

| file | module | contents |
|---|---|---|
| wrappers.dfy | `Wrappers` | `Option`, `Result` |
| text.dfy | `Text` | ASCII lower-casing, case-insensitive equality, `includes`, ECMAScript `trim` |
| medicine_model.dfy | `MedicineModel` | the document, the schema defaults, `Create` |
| label.dfy | `Label` | the label record, `||` chains, the API fallback chain |
| jargon.dfy | `Jargon` | `simplifyJargon` as written, a word-by-word reference, and their equivalence |
| jargon_table.dfy | `JargonTable` | facts about the concrete 39-entry table, and `simplifyJargon` with it |
| safety_badge.dfy | `SafetyBadge` | `getSafetyBadge` and its tiers |
| recent_searches.dfy | `RecentSearches` | `saveToRecent` |
| client_search.dfy | `ClientSearch` | `searchMedicine`, `parseMedicineData` |
| medicine_routes.dfy | `MedicineRoutes` | `/search/:name`, `/popular` and the store invariants |

### Modelling choices

- A document created from the label API is answered with source `"OpenFDA"`, the tag the route writes (`backend/routes/medicineRoutes.js:44`).
- The cache query is the anchored, case-insensitive pattern `^key$`. A document therefore matches only when its whole name equals the key ignoring case. A name that merely contains the key does not match.
- When several documents match, the first one in store order is taken.

## Model

| member | source | states |
|---|---|---|
| MedicineModel.Create | backend/models/Medicine.js:3-15 | Creation fails exactly when `name` is undefined or empty. Otherwise each of the nine text paths holds the supplied value, or "Not available" when undefined; an empty string is kept. `searchCount` is the supplied value, else 1. |
| Text.Trim | script.js:144 | The result is the block of the input left between leading and trailing runs of ECMAScript white space and line terminators. It neither starts nor ends with one. |
| Text.TrimIdempotent | backend/routes/medicineRoutes.js:9 | Trimming an already trimmed key changes nothing. |
| Text.EqualsIgnoreCaseEquivalence | script.js:103 | Comparing lower-cased names is an equivalence: reflexive, symmetric, transitive. |
| Jargon.SimplifyWith | script.js:47-48 | An absent or empty text, or the text "Not available", gives "Not available". |
| Jargon.ReplaceAllIsAnnotateWords | script.js:50-53 | One global `\bterm\b` case-insensitive replacement with a valid lower-case term equals the word-by-word reference: every maximal run of word characters equal to the term ignoring case becomes `term (gloss)`, and everything else is copied. |
| Jargon.ApplyAllIsAnnotateWords | script.js:50-53 | The passes run in table order compute the word-by-word reference for a table of valid terms whose annotations hold no later term. |
| Jargon.SimplifyAnnotatesWords | script.js:47-55 | `simplifyJargon` on a real text glosses each whole word that is a term ignoring case with the first matching entry's annotation, and copies every other character. |
| Jargon.NoTermSimplifiesVerbatim | script.js:47-55 | With any table of valid terms, a text in which no term occurs as a whole word comes back unchanged. |
| Jargon.MatchIsWholeWord | script.js:51 | A regular-expression match is a whole maximal word: it starts at a word start and ends at a word end. |
| Jargon.WordRun | script.js:51 | The length of the maximal run of word characters at the head of a text: all word characters, followed by a non-word character or the end. |
| JargonTable.JargonMapValid | script.js:5-45 | Every term of the 39-entry table is non-empty lower-case ASCII letters, so each pass matches it literally. |
| JargonTable.SimplifyJargonKeepsPlainText | script.js:47-55 | `simplifyJargon` with the table returns a text in which no term of the table occurs as a whole word, ignoring case, unchanged. |
| JargonTable.SimplifyJargonAnnotatesWords | script.js:47-55 | `simplifyJargon` with the table glosses each whole word that is a term ignoring case with the first matching entry's annotation, and copies every other character, given that no annotation holds a later term. |
| Jargon.Lookup | script.js:50 | The first table entry with the given term, or none exactly when no entry has it. |
| SafetyBadge.GetSafetyBadge | script.js:60-92 | The badge is always one of the three label/colour pairs. |
| SafetyBadge.ClassifyByTiers | script.js:65-91 | Caution exactly when a caution keyword occurs. Moderate exactly when none does but a moderate keyword occurs. Safe exactly when neither does. |
| SafetyBadge.SafetyBadgeByTiers | script.js:61-91 | The badge of a record follows those tiers on its lower-cased `warnings + " " + sideEffects`. |
| SafetyBadge.BadgeOfInjective | script.js:72-90 | The three badges are pairwise different. |
| SafetyBadge.SentinelFieldsAreSafe | script.js:60-92 | A record whose warnings and side effects are both "Not available" is generally safe. |
| SafetyBadge.SafeWithoutKeyLetters | script.js:65-81 | A text lacking the letters d, f, s, c and r contains no keyword of either tier. |
| RecentSearches.Without | script.js:103 | The filter keeps only entries not equal to the name ignoring case, keeps each such entry, in their original order, and keeps a duplicate-free list duplicate-free. |
| RecentSearches.WithoutCounts | script.js:103 | Each entry not equal to the name ignoring case is kept as many times as the old list holds it, exact duplicates included; every other entry is dropped. |
| RecentSearches.SaveToRecent | script.js:97-107 | At most five entries, the searched name first as typed, and no later entry equal to it ignoring case. The rest is the filtered old list cut to fit, so when the list is full the oldest entries drop. The length is one more than the filtered list, or five when that has five or more entries. A duplicate-free list stays duplicate-free. |
| RecentSearches.SaveToRecentIdempotent | script.js:101-104 | Saving the same name twice in a row gives the list of the first save. |
| RecentSearches.SavedListIsFixed | script.js:101-104 | A list of at most five entries that starts with the name and holds it nowhere else is unchanged by saving that name. |
| RecentSearches.SaveToRecentMovesToFront | script.js:101-104 | Saving a name the list already holds, ignoring case, does not lengthen the list. |
| RecentSearches.WithoutShorter | script.js:103 | Filtering out a name that some entry equals shortens the list. |
| Label.FirstNonEmpty | script.js:168-200 | An `a \|\| b \|\| … \|\| fallback` chain over first array elements gives the first non-empty candidate, else the fallback. |
| Label.Chain | script.js:146-157 | The fallback chain queries a prefix of the fields in order, stopping at the first field with a label. It yields that label, or none after all fields gave nothing. |
| Label.FetchFirstOrder | script.js:146-159 | Brand first; generic only after brand gave nothing; substance only after both gave nothing; no result exactly when all three give nothing. |
| ClientSearch.ParseMedicineData | script.js:166-202 | Each view field is its first non-empty candidate in the code's order, else "Unknown Medicine" for the name and "Not available" for the others. So no field is ever empty. |
| ClientSearch.ParsedName | script.js:168-171 | The name is the brand name, else the generic name, else "Unknown Medicine". |
| ClientSearch.ParsedWarnings | script.js:188-192 | The warnings are the boxed warning, else the warnings, else the warnings-and-cautions, else "Not available". |
| ClientSearch.SearchMedicine | script.js:143-161 | The input is trimmed. The first of brand/generic/substance that finds a label is parsed. The result is null exactly when all three find nothing. |
| MedicineRoutes.FindCached | backend/routes/medicineRoutes.js:11-13 | The cache lookup yields the first document whose name equals the key ignoring case, and nothing exactly when none does. |
| MedicineRoutes.Search | backend/routes/medicineRoutes.js:7-49 | On a hit: no API search, that document's count goes up by one, nothing else changes, and the response is the bumped document from "cache". On a miss: the searches made are exactly brand, generic, substance up to and including the first that finds a label, and 404 comes exactly when all three find nothing. A 404 or 500 leaves the store unchanged. A document stored from the API is appended with count 1 and source "OpenFDA". |
| MedicineRoutes.Hit | backend/routes/medicineRoutes.js:15-18 | A cache hit makes no API search, raises that document's count by one, leaves every other document unchanged and answers with the bumped document from "cache". |
| MedicineRoutes.Miss | backend/routes/medicineRoutes.js:21-47 | A miss searches brand, then generic, then substance, stopping at the first that finds a label. It answers 404 exactly when all three find nothing, and 500 exactly when the document built from the found label is refused; both leave the store unchanged. Otherwise it appends the created document, with count 1 and source "OpenFDA". |
| MedicineRoutes.RefusedExactlyForEmptyName | backend/routes/medicineRoutes.js:30-42 | The built document is refused exactly when the label has no non-empty first brand name and the key is empty. |
| MedicineRoutes.InsertedRecordFields | backend/routes/medicineRoutes.js:29-44 | A stored document's name is the label's first brand name if non-empty, else the key. Each other field is the label's first value of its single source, with `boxed_warning \|\| warnings` for warnings, or "Not available" when absent. |
| MedicineRoutes.CreatedFields | backend/routes/medicineRoutes.js:29-42 | The created document follows that field mapping. |
| MedicineRoutes.ServerErrorOnlyForBlankKey | backend/routes/medicineRoutes.js:30-47 | A 500 happens exactly when the cache misses, a label is found, its first brand name is absent or empty, and the trimmed key is empty. |
| MedicineRoutes.ServerAgreesWithClient | backend/routes/medicineRoutes.js:29-40 | Wherever the server's source for a field is non-empty, the stored value equals what the client's `parseMedicineData` shows for the same label. |
| MedicineRoutes.ClientFirstCandidates | script.js:168-199 | Wherever a field's first candidate is non-empty, the client shows it. |
| MedicineRoutes.SearchKeepsStoreValid | backend/routes/medicineRoutes.js:15-42 | Every stored document keeps a non-empty name and a count of at least 1. |
| MedicineRoutes.SearchCountsAnsweredSearches | backend/routes/medicineRoutes.js:15-44 | The sum of the counts grows by one exactly for a search answered with a document, and not for a 404 or 500. |
| MedicineRoutes.TotalSearchesBump | backend/routes/medicineRoutes.js:16 | Bumping one document's count raises the total by one. |
| MedicineRoutes.RepeatSearchHitsCache | backend/routes/medicineRoutes.js:11-19 | After a miss stores a document named like the key, repeating the search is a cache hit with no API search, and the count becomes 2. |
| MedicineRoutes.RepeatSearchDuplicates | backend/routes/medicineRoutes.js:11-42 | After a miss stores a document under a brand name different from the key, repeating the search with the same label API, which answers the same way both times, misses again and stores a second identical document. The cache does not prevent duplicates. |
| MedicineRoutes.SortByCount | backend/routes/medicineRoutes.js:53 | The sort is a permutation with counts not increasing. |
| MedicineRoutes.InsertByCount | backend/routes/medicineRoutes.js:53 | Inserting into a sorted sequence keeps it sorted and adds exactly that entry. |
| MedicineRoutes.Popular | backend/routes/medicineRoutes.js:51-58 | At most ten entries (all of them when fewer), counts not increasing, drawn from the store. No document left out has a higher count than one returned. |
| MedicineRoutes.TopOfPermutation | backend/routes/medicineRoutes.js:52-54 | The first k entries of a sorted permutation are a top-k of the original. |

## Left out

- Browser side: the DOM, rendering, `localStorage` and JSON (de)serialisation of the recent list (`displayRecent`, `displayResults`, `handleSearch`, `quickSearch`). The recent list is a value passed in and returned.
- The label API: the URL building and `encodeURIComponent`, `fetch`/`axios` and the server's 8-second timeout. The API is the `Fetch` parameter: a label or nothing. The server's helper turns every failure into nothing, which the parameter covers. The client's `fetch` can also throw on a network error, and `searchMedicine` then rejects; that rejection is not modelled.
- `backend/server.js` and `backend/routes/userRoutes.js` (wiring, authentication) are not part of this model.
- Database behaviour beyond the collection as a sequence: the `timestamps` option, concurrent requests racing between `findOne` and `create`, and write failures other than validation.
- MedicineRoutes.Popular: Mongo's order among equal counts is unspecified. The model sorts stably (store order among ties), and its contract states only what holds for any tie order.
- MedicineRoutes.FindCached: the key is spliced into the regular expression unescaped. Keys holding regular-expression metacharacters, and the `$` that also matches before a final newline, are modelled as literal equality. The database's case-insensitive match also folds non-ASCII letters, while the model folds ASCII letters only: a stored "Élan" searched as "élan" is a hit for the route but a miss in the model, which then stores a second document.
- Text.LowerStr: `toLowerCase` is modelled on ASCII letters only. Other characters, such as the Kelvin sign (which lowercases to `k`), are kept as they are. The jargon regular expression runs in non-Unicode mode, where this is exact.
- MedicineModel.MedicineRecord: `searchCount` is an unbounded integer. The loss of precision of JavaScript numbers above 2^53 is not modelled.
- Label.Label: an absent label field, a null and an empty array all collapse to the empty sequence. All three make `?.[0]` undefined, so nothing the code computes differs.
- JargonTable.SimplifyJargonAnnotatesWords: `Inert(JargonMap)` (no row's annotation holds a later row's term as a whole word) is a hypothesis, not proved. Deciding it means running the word-by-word lookup over every annotation of the literal table, which the solver does not finish within its budget. `AllValid(JargonMap)` is proved (`JargonTable.JargonMapValid`).
- Jargon.SimplifyAnnotatesWords and Jargon.ApplyAllIsAnnotateWords: stated for any table meeting `AllValid` and `Inert`; for `JargonMap` only the first is discharged.
- SafetyBadge.GetSafetyBadge: the page reads the parsed view, whose fields are never empty. The model accepts any optional strings, as the function itself does.
