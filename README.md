# Doctor directory search engine, modelled in Dafny

This project models the logic of a doctor directory that sits between the fetched records and
the rendered list. It has two parts.

- **Record normalisation** (`doctorService.ts`) turns loosely typed JSON items into `Doctor`
  records. Numbers and digit runs are coerced into experience and fees. Specialty names are
  read from the `specialities` array. Consultation modes come from two boolean flags. Missing
  fields get defaults.
- **The search hook** (`useDoctorSearch.ts`) holds the query state: search term, consultation
  mode, selected specialties and sort option. It derives three views from the doctor list and
  that state:
  - the facet list of distinct specialties, sorted;
  - the filtered and optionally sorted result list;
  - the first three name matches, as autocomplete suggestions.

  It also keeps the state in step with a flat URL parameter map. It supports toggling a
  specialty and clearing every filter.

Modules:

| file | module | contents |
|---|---|---|
| `json.dfy` | `Json` | raw JSON values, JavaScript truthiness, property access, `Option` and a `Result` whose error is the `TypeError` of reading a property of `null` |
| `doctor.dfy` | `Doctors` | the `Doctor` record and the `ConsultationMode` and `SortOption` vocabularies |
| `seqs.dfy` | `Seqs` | `filter` and `slice(0, n)` on sequences |
| `strings.dfy` | `Strings` | ASCII lower-casing, `includes`, and the character order of the default `sort` |
| `doctor_service.dfy` | `DoctorService` | the `processX` helpers and the per-item record construction |
| `stable_sort.dfy` | `StableSort` | the result comparator, a stable insertion sort as a function, and the same sort done in place on an array |
| `facets.dfy` | `Facets` | the facet extractor: a set built up in loops, then sorted by repeatedly taking the least element |
| `filtering.dfy` | `Filtering` | the query state, the conjunctive filter, the result list and the suggestions |
| `query_params.dfy` | `QueryParams` | `split(",")`/`join(",")` and the coding between query state and the parameter map |
| `search_hook.dfy` | `SearchHook` | the hook as a class holding its four state fields and the parameter map, plus the specialty toggle |

The derived views are functions of the doctor list and the state:

- `Filtering.Results(doctors, hook.State())` is the result list;
- `Filtering.Suggestions(doctors, hook.searchTerm)` is the suggestion list;
- `Facets.AllSpecialties(doctors)` is the facet list.

`Filtering.FilteredDoctors` is the imperative version of the result list. It narrows a copy
through successive filter steps and then sorts an array in place. It is proved equal to
`Results`.

Behaviour of the code that a reader may not expect:

- A payload that is not an array gives an empty list. It is not an error.
- A numeric `experience` or `fees` is kept as it is, so it can be negative. Only values parsed
  from a string are guaranteed to be non-negative.
- Normalisation is not total. A `null` item, or a `null` entry of `specialities`, makes
  property access throw. The model returns `TypeError` for these.
- The selected specialties form a list, not a set. A list read from the URL can hold
  duplicates and empty entries.
- The URL round trip needs more than comma-free specialties:
  - a mode or sort option equal to `""` is not written, so it reads back as absent;
  - the list `[""]` joins to `""`, which reads back as `[]`.
- Mode and sort strings are read from the URL without checking them. An unknown mode matches
  no doctor. An unknown sort string leaves the order unchanged.

## Model

| member | source | states |
|---|---|---|
| Json.TextOr | src/services/doctorService.ts:19 | the or-fallback on a string field gives the string when the field is truthy and a string, and the fallback whenever the field is falsy |
| Json.Collect | src/services/doctorService.ts:16-29 | mapping with a throwing callback: succeeds exactly when every item succeeds, and then keeps every value in order |
| Doctors.ParseSortOption | src/hooks/useDoctorSearch.ts:119-124 | a sort string is recognised exactly when it is the label of one of the two sort options |
| DoctorService.FirstIntegerIsFirstRun | src/services/doctorService.ts:49-51 | the parsed integer is the decimal value of the first maximal run of digits |
| DoctorService.FirstIntegerNone | src/services/doctorService.ts:49-50 | there is no match exactly when the string has no digit |
| DoctorService.ProcessExperience | src/services/doctorService.ts:47-57 | a number is returned unchanged; a string gives a non-negative value, and 0 when it has no digits; anything else gives 0 |
| DoctorService.ProcessFees | src/services/doctorService.ts:59-69 | the same three cases as for experience |
| DoctorService.FeesAgreeWithExperience | src/services/doctorService.ts:59-69 | fee coercion equals experience coercion on every input |
| DoctorService.StringCoercionValue | src/services/doctorService.ts:48-52 | for a string, experience and fees are both the decimal value of its first maximal run of digits |
| DoctorService.ExperienceOfFifteenYears | src/services/doctorService.ts:48-52 | `"15 years"` gives 15 |
| DoctorService.SpecialtyNames | src/services/doctorService.ts:42 | it throws exactly when an entry is `null`; otherwise no name is empty and there are no more names than entries |
| DoctorService.SpecialtyNamesConcat | src/services/doctorService.ts:42 | the names of joined entry lists are the joined names, so names keep their entries' order |
| DoctorService.SpecialtyNamesMembers | src/services/doctorService.ts:42 | a string is a name exactly when it is the non-empty name of some entry |
| DoctorService.ProcessSpecialties | src/services/doctorService.ts:40-45 | a missing or non-array field gives `[]`; it throws exactly when the array holds `null`; the result has no empty name |
| DoctorService.ConsultationModes | src/services/doctorService.ts:71-80 | Video Consult is present exactly when `video_consult` is truthy, and In Clinic exactly when `in_clinic` is; video comes first; there are no duplicates; there are at most 2 |
| DoctorService.ProcessConsultationModes | src/services/doctorService.ts:71-80 | the pushes produce exactly the mode list above |
| DoctorService.NormalizeItem | src/services/doctorService.ts:17-28 | a record is built exactly when the item is not `null` and its specialties do not throw |
| DoctorService.RecordDefaults | src/services/doctorService.ts:18-26 | name, id and location are the item's non-empty string when there is one, otherwise "Unknown Doctor", the fallback id and "Unknown location"; the picture is the non-empty photo string and is absent for a falsy photo; specialties, experience, fees and modes are the helpers' results, and no specialty is empty |
| DoctorService.NormalizePayload | src/services/doctorService.ts:15-31 | a non-array payload gives `[]`; an array is mapped one-to-one, keeping length and order, and succeeds exactly when every item does |
| StableSort.Compare | src/hooks/useDoctorSearch.ts:116-125 | the comparator is positive or zero exactly when the sort key of `a` is above or equal to that of `b` (fees ascending, experience descending, no key otherwise) |
| StableSort.InsertPermutes | src/hooks/useDoctorSearch.ts:116 | one insertion step adds the element and nothing else |
| StableSort.InsertAscending | src/hooks/useDoctorSearch.ts:116 | inserting into an ordered list keeps it ordered |
| StableSort.InsertStable | src/hooks/useDoctorSearch.ts:116 | the inserted element goes behind the elements with the same key |
| StableSort.SortedIsAscending | src/hooks/useDoctorSearch.ts:115-126 | the sorted list is in ascending key order |
| StableSort.SortedIsPermutation | src/hooks/useDoctorSearch.ts:115-126 | the sorted list is a permutation of its input |
| StableSort.SortedIsStable | src/hooks/useDoctorSearch.ts:115-126 | elements with equal keys keep their input order |
| StableSort.SortedWithoutKeyIsIdentity | src/hooks/useDoctorSearch.ts:124 | a comparator that always returns 0 leaves the list unchanged |
| StableSort.InsertShift | src/hooks/useDoctorSearch.ts:116 | moving past an element that belongs after the inserted one leaves the insertion result unchanged |
| StableSort.InsertAt | src/hooks/useDoctorSearch.ts:116 | one in-place pass leaves the array as the insertion of `a[i]` into the sorted prefix, with the suffix untouched |
| StableSort.SortInPlace | src/hooks/useDoctorSearch.ts:115-126 | the in-place sort leaves the array holding the stable sort of its old contents |
| Strings.Lower | src/hooks/useDoctorSearch.ts:92-94 | lower-casing keeps the length, leaves no ASCII capital, maps each capital to its small letter and keeps every other character |
| Strings.LowerIdempotent | src/hooks/useDoctorSearch.ts:92-94 | lower-casing twice is lower-casing once |
| Strings.LexTransitive | src/hooks/useDoctorSearch.ts:55 | the default string order is transitive |
| Strings.LexTotal | src/hooks/useDoctorSearch.ts:55 | any two different strings are ordered |
| Strings.AscendingUnique | src/hooks/useDoctorSearch.ts:55 | two strictly ascending lists with the same members are equal, so the facet contract fixes the output |
| Facets.SpecialtySetMembers | src/hooks/useDoctorSearch.ts:43-53 | a string is collected exactly when it is a non-empty specialty of some doctor |
| Facets.Least | src/hooks/useDoctorSearch.ts:55 | returns a member of the set that is below every other member |
| Facets.SortSet | src/hooks/useDoctorSearch.ts:55 | the result is strictly ascending, has exactly the members of the set and one entry per member |
| Facets.AllSpecialties | src/hooks/useDoctorSearch.ts:39-56 | the facets are strictly ascending, so there are no duplicates; they are exactly the non-empty specialties of the doctors; an empty doctor list gives `[]` |
| Facets.CardiologyDermatology | src/hooks/useDoctorSearch.ts:39-56 | specialties `["Cardiology"]` and `["Dermatology", "Cardiology"]` give `["Cardiology", "Dermatology"]` |
| Filtering.ApplyFilters | src/hooks/useDoctorSearch.ts:88-112 | the successive filter steps keep exactly the doctors that pass every active filter, in source order |
| Filtering.FilteredDoctors | src/hooks/useDoctorSearch.ts:82-129 | the method gives the result list: a doctor is in it exactly when it is an input doctor that passes every active filter |
| Filtering.ResultsMembers | src/hooks/useDoctorSearch.ts:88-112 | the results are sound and complete for the conjunction of the active filters |
| Filtering.ResultsArePermutation | src/hooks/useDoctorSearch.ts:115-126 | the results are a permutation of the filtered subsequence |
| Filtering.UnsortedKeepsSourceOrder | src/hooks/useDoctorSearch.ts:115-128 | with no sort option, or an unrecognised one, the results are the filtered subsequence in source order |
| Filtering.UnknownModeShowsNothing | src/hooks/useDoctorSearch.ts:99-104 | a mode string that names no consultation mode gives no results |
| Filtering.FeesAscending | src/hooks/useDoctorSearch.ts:119-120 | sorting by `"fees"` gives non-decreasing fees |
| Filtering.ExperienceDescending | src/hooks/useDoctorSearch.ts:121-122 | sorting by `"experience"` gives non-increasing experience |
| Filtering.ResultsAreStable | src/hooks/useDoctorSearch.ts:115-126 | doctors that tie under the comparator keep their source order |
| Filtering.ClearedShowsEverything | src/hooks/useDoctorSearch.ts:88-128 | with every filter cleared the results are the whole list in source order |
| Filtering.Suggestions | src/hooks/useDoctorSearch.ts:132-142 | at most 3 suggestions; none for an empty term or an empty list; every suggestion is a doctor whose name matches |
| Filtering.SuggestionsArePrefix | src/hooks/useDoctorSearch.ts:135-141 | with a term, the suggestions are the first min(3, k) of the k name matches, in source order |
| Filtering.NameMatchIgnoresCase | src/hooks/useDoctorSearch.ts:92-94 | for every doctor and term, the name match is unchanged by lower-casing the term or the name |
| Filtering.SuggestionIgnoresCase | src/hooks/useDoctorSearch.ts:135-138 | the term "RAM" suggests a doctor named "Dr. Ram" |
| Filtering.NoDoctorsNothingShown | src/hooks/useDoctorSearch.ts:84-86 | an empty doctor list gives no results and no suggestions |
| QueryParams.Split | src/hooks/useDoctorSearch.ts:32 | a split has at least one piece, and no piece holds a comma |
| QueryParams.JoinSplit | src/hooks/useDoctorSearch.ts:32 | joining the pieces of any string gives it back |
| QueryParams.SplitNoComma | src/hooks/useDoctorSearch.ts:32 | a comma-free string splits into itself alone |
| QueryParams.SplitAfterPiece | src/hooks/useDoctorSearch.ts:32 | a comma-free piece followed by a comma splits off as the first piece |
| QueryParams.SplitJoin | src/hooks/useDoctorSearch.ts:64 | splitting the join of a non-empty, comma-free list gives the list back |
| QueryParams.JoinEmpty | src/hooks/useDoctorSearch.ts:64 | the join is empty exactly for `[]` and `[""]` |
| QueryParams.Encode | src/hooks/useDoctorSearch.ts:59-68 | there is a key exactly for each field that is not at its default, holding that field, with the list comma-joined; there are no other keys |
| QueryParams.Decode | src/hooks/useDoctorSearch.ts:27-36 | mode and sort are present exactly when their keys are; the list is non-empty exactly when `specialties` is non-empty, and then it joins back to that value |
| QueryParams.DecodeEncode | src/hooks/useDoctorSearch.ts:27-68 | a state whose mode and sort are not `""`, whose list is not `[""]` and has no commas survives writing and reading back |
| QueryParams.EncodeDecode | src/hooks/useDoctorSearch.ts:27-68 | a map with only the four keys and non-empty values survives reading and writing back |
| QueryParams.CommaSplitsSpecialty | src/hooks/useDoctorSearch.ts:32 | a selected specialty `"a,b"` reads back as `["a", "b"]` |
| QueryParams.EmptyModeIsDropped | src/hooks/useDoctorSearch.ts:63 | a mode of `""` is not written and reads back as absent |
| QueryParams.ClearedEncodesEmpty | src/hooks/useDoctorSearch.ts:144-150 | the cleared state writes the empty map |
| SearchHook.Toggled | src/hooks/useDoctorSearch.ts:71-79 | the toggled specialty is present exactly when it was absent; the membership of every other string is unchanged |
| SearchHook.ToggleKeepsOthers | src/hooks/useDoctorSearch.ts:71-79 | the other entries keep their relative order |
| SearchHook.ToggleTwice | src/hooks/useDoctorSearch.ts:73-77 | an absent specialty is appended at the end, and toggling it again restores the list |
| SearchHook.DoctorSearch.constructor | src/hooks/useDoctorSearch.ts:26-36 | the initial state is the decoding of the URL, and the map is then synced |
| SearchHook.DoctorSearch.SyncParams | src/hooks/useDoctorSearch.ts:59-68 | the state is unchanged and the map becomes its encoding |
| SearchHook.DoctorSearch.SetSearchTerm | src/hooks/useDoctorSearch.ts:27 | only the term changes, and the map follows |
| SearchHook.DoctorSearch.SetConsultationMode | src/hooks/useDoctorSearch.ts:28-30 | only the mode changes (to the label or null), and the map follows |
| SearchHook.DoctorSearch.SetSortOption | src/hooks/useDoctorSearch.ts:34-36 | only the sort option changes (to the label or null), and the map follows |
| SearchHook.DoctorSearch.ToggleSpecialty | src/hooks/useDoctorSearch.ts:71-79 | only the list changes, to its toggled form, and the map follows |
| SearchHook.DoctorSearch.ClearAllFilters | src/hooks/useDoctorSearch.ts:144-150 | all four fields are reset to ""/null/[]/null and the map is empty, which is also the encoding of the cleared state |

## Left out

- Network and async I/O (`fetch`, `response.ok`, `response.json()`, logging and rethrowing) are not modelled. Normalisation starts from an already parsed payload.
- `String(Math.random())` for a missing id is nondeterministic. It is a parameter, `fallbackId`, indexed by position.
- The constant `rating: 4.5` is a float with no logic behind it. It is not a field of the model's `Doctor`.
- React machinery (`useState`, `useMemo`, `useEffect` scheduling, `useSearchParams`) is not modelled. The state is the class fields, the memoised views are functions, and the effect is `SyncParams`, called after every setter. A state update is applied at once, not at the next render.
- Strings.Lower folds ASCII letters only. Unicode `toLowerCase` is not modelled, and the name match is stated relative to this fold.
- Strings are sequences of characters compared character by character. UTF-16 code units and surrogate pairs are not modelled.
- JSON numbers are integers, so floats, `NaN` and the limit of `parseInt` precision beyond 2^53 are not modelled. A fractional number or `NaN` in `experience` or `fees` is outside the model.
- DoctorService.NormalizeItem: a truthy non-string `id`, `name`, `city` or `photo` is treated as missing (default value) instead of being copied into the record.
- DoctorService.SpecialtyName: a truthy non-string specialty `name` is treated as empty and dropped, instead of being kept.
- StableSort.SortInPlace is an insertion sort, not the engine's own sorting algorithm. A stable sort with a comparator that is a total preorder gives one output, so the result list is the same.
- Filtering.Matches does not model `null` doctors or doctors without list fields. Normalised records always have them, so the `doctor &&` and `Array.isArray` guards are always true.
- The UI components (filter panel, doctor card, autocomplete box) and the page's loading and error state are presentation only and are not modelled.
