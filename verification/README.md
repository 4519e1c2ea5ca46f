# Curriculum map planner, modelled in Dafny

This project models the planning logic of the curriculum map for the degree
"Licenciatura en Lenguas Extranjeras (Énfasis en Inglés)". The logic lives in
the React component `CurriculumMap` (src/CurriculumMap.tsx). Its parts:

- **The catalog `DATA`.** 101 courses: 47 required (`Obligatorio`) courses fixed to semesters 1-10, and 54 electives (`Electivo`) in the pools FC, IBC, DC and DE.
- **The completion set `completed`.** Changed by the Cursada checkbox and by Reiniciar.
- **The assignment map `asignaciones`.** Maps an elective id to the semester it is placed in, stored as a string. It is changed by the elective selector (`onAdd`), by Quitar and by the JSON import.
- **The credit totals.** Assigned, remaining, completed and required credits, and the progress percentage.
- **The per-semester view `porSemestre`.** Built from the catalog, the map and a case-insensitive search.

The safety rule of the planner is the elective cap: at most
`TOTAL_ELECTIVOS_PLAN` = 27 elective credits may be assigned. The project also
models the width clamp of the `Progress` bar
(malla/src/components/ui/progress.tsx).

Modules, one file each:

- `Options`, `Seqs`: the optional value, and `filter` / `find` on sequences.
- `Strings`: `trim`, `toLowerCase`, `includes`, `String(n)` and `Number(p)` on the strings the component handles.
- `Catalog`: `Curso`, `DATA` and the plan constants, `sumCreditos`, and what a well-formed catalog is.
- `CatalogFacts`: the proof that `DATA` is well formed and that its required credits total 133. The catalog is checked block by block (one block per semester or pool) through tables of ids and credits.
- `Credits`: the assignment map and its derived views (`idsAsignados`, `electivasDisponibles`) and the credit totals.
- `Planner`: the transitions Cursada, Reiniciar, `onAdd`, Quitar and import, the selector's options, and runs of actions.
- `Sorting`: the stable sort with a comparator.
- `View`: `searchMatch` and `porSemestre`.
- `ProgressBar`: the `Progress` clamp.
- `Shipped`: the generic results applied to `DATA`.

Every operation takes the catalog as a parameter `cat`. The facts that need
`DATA`'s shape assume `WellFormed(cat)`, which `CatalogFacts.DataWellFormed`
establishes for `DATA` itself.

Modelling choices:

- A map value is truthy when the key is present and the value is not the empty string.
- `String(s)` writes a natural number in decimal.
- `Number(p)` is read as a plain decimal numeral. Leading zeros are allowed, and anything else is not a number.
- `toLowerCase` lowers ASCII A-Z and Latin-1 À-Þ except ×.
- `trim` removes exactly the ECMAScript WhiteSpace and LineTerminator characters.
- `localeCompare` is a parameter `before`. Sortedness is proved for any total preorder.
- The render-time exception of `porSemestre` appears as `None`. It is raised when a required course that the search keeps has no semester among 1..10.

## Model

| member | source | states |
|---|---|---|
| CatalogFacts.DataWellFormed | src/CurriculumMap.tsx:63-204 | Every entry of `DATA` has a non-empty id that no other entry shares and credits of at least 0. Every required course has a semester in 1..10, and no elective has one. |
| CatalogFacts.DataRequiredCredits | src/CurriculumMap.tsx:63-211 | The required courses of `DATA` add up to exactly `TOTAL_OBLIGATORIOS_PLAN` = 133 credits, and 133 + `TOTAL_ELECTIVOS_PLAN` = `TOTAL_CREDITOS_PLAN` = 160. |
| Shipped.DataRequiredTotal | src/CurriculumMap.tsx:262 | `creditosObligatorios` over `DATA` equals `TOTAL_OBLIGATORIOS_PLAN`. |
| Catalog.SumCredits | src/CurriculumMap.tsx:213 | `sumCreditos` of a list whose credits are all at least 0 is itself at least 0. |
| Catalog.SumConcat | src/CurriculumMap.tsx:213 | `sumCreditos` of two lists joined is the sum of their totals. |
| Strings.Trim | src/CurriculumMap.tsx:239 | The trimmed query is empty exactly when the query is all whitespace. Otherwise it starts and ends with a non-whitespace character. |
| Strings.TrimKeepsMiddle | src/CurriculumMap.tsx:239 | The trimmed query is a contiguous slice of the query, and everything cut off before and after it is whitespace. |
| Strings.Lower | src/CurriculumMap.tsx:239 | Lower-casing keeps the length and leaves no upper-case letter behind. Each upper-case letter becomes the letter 32 code points above it, and every other character is kept as it was. |
| Strings.LowerTrimCommute | src/CurriculumMap.tsx:239 | Trimming and lower-casing commute, so their order in the query pipeline does not matter. |
| Strings.Includes | src/CurriculumMap.tsx:241 | `hay.includes(needle)` holds exactly when the needle occurs at some position of the haystack. |
| Strings.ParseLeadingZero | src/CurriculumMap.tsx:250 | A leading zero never changes what a stored semester string reads as: "03" reads as 3, and "0x" is no number because "x" is none. |
| Strings.ParseCanonical | src/CurriculumMap.tsx:250 | A digit string without leading zeros that reads as `n` is exactly `String(n)`, the converse of the next row. |
| Strings.ParseNatToString | src/CurriculumMap.tsx:294 | `Number(String(s))` gives back `s` for every natural `s`, so the semester string `onAdd` stores reads back as its semester. |
| Credits.AssignedIdsAfterSet | src/CurriculumMap.tsx:256 | After a key is set to a non-empty value, `idsAsignados` contains it, and every other id is in it exactly when it was before. |
| Credits.AssignedIdsAfterDelete | src/CurriculumMap.tsx:256 | After a key is deleted, `idsAsignados` no longer contains it, and every other id is in it exactly when it was before. |
| Credits.AssignedElectives | src/CurriculumMap.tsx:263 | The electives counted by `creditosElectivosAsignados` are exactly the catalog electives whose map entry is truthy. |
| Credits.Available | src/CurriculumMap.tsx:256-257 | `electivasDisponibles` holds exactly the catalog electives whose id is not in `idsAsignados`. |
| Credits.AssignedCredits | src/CurriculumMap.tsx:263 | In a well-formed catalog the assigned credits lie between 0 and the credits of all the catalog's electives. |
| Credits.AvailablePartition | src/CurriculumMap.tsx:256-263 | Assigned credits plus the credits of the available electives equal all elective credits of the catalog. |
| Credits.AssignedCreditsOnlyElectives | src/CurriculumMap.tsx:263 | Two maps that agree on which catalog electives are assigned give the same assigned credits. Keys of other ids, and entries holding "", never count. |
| Credits.Remaining | src/CurriculumMap.tsx:264 | `electivosRestantes` is never negative. It equals 27 minus the assigned credits while those are within the cap, and 0 beyond. For a well-formed catalog it is at most 27. |
| Credits.CompletedCredits | src/CurriculumMap.tsx:259 | Completed credits are 0 when no catalog course is ticked, and the catalog's whole total when every one is. |
| Credits.CompletedCreditsOnlyCatalog | src/CurriculumMap.tsx:259 | Two completion sets that agree on the catalog's ids give the same completed credits, so ids outside the catalog count for nothing. |
| Credits.CompletedCreditsBounds | src/CurriculumMap.tsx:259 | For a well-formed catalog, completed credits lie between 0 and the catalog's total. |
| Credits.RequiredCredits | src/CurriculumMap.tsx:262 | In a well-formed catalog `creditosObligatorios` lies between 0 and the catalog's total. |
| Credits.ProgressPercent | src/CurriculumMap.tsx:260 | `progresoPct` is at most 100. It is 100 exactly when at least 160 credits are completed. Below that it is the integer nearest to completed/160·100, with halves rounded up. It is not negative for a non-negative count. |
| Credits.AssignedCreditsAfterSet | src/CurriculumMap.tsx:263 | Giving a catalog elective a non-empty entry adds its credits to the assigned total, unless it was already assigned. |
| Credits.AssignedCreditsAfterDelete | src/CurriculumMap.tsx:263 | Deleting a key never raises the assigned total. When the key is an assigned elective, it lowers the total by exactly that elective's credits. |
| Planner.ToggleCompleted | src/CurriculumMap.tsx:434 | The Cursada checkbox flips whether `id` is completed and leaves every other id as it was. |
| Planner.ToggleTwice | src/CurriculumMap.tsx:434 | Ticking the same checkbox twice restores the original completion set. |
| Planner.ToggleCompletedCredits | src/CurriculumMap.tsx:434 | Ticking a catalog course raises completed credits by its credits. Unticking it lowers them by the same amount. |
| Planner.ResetClearsProgress | src/CurriculumMap.tsx:334 | After Reiniciar, completed credits are 0 and the progress reads 0%. |
| Planner.ProgressBounds | src/CurriculumMap.tsx:259-260 | For a well-formed catalog the progress percentage lies in [0, 100]. |
| Planner.FindElective | src/CurriculumMap.tsx:288 | `electivasBase.find` returns a catalog elective with the given id, and finds nothing exactly when no elective has it. |
| Planner.FindElectiveUnique | src/CurriculumMap.tsx:288 | In a well-formed catalog, looking up an elective's id returns that very elective. |
| Planner.CheckAdd | src/CurriculumMap.tsx:286-293 | `onAdd` stops on an empty id exactly when the id is "", and as unknown exactly when no catalog elective has the id. An over-cap rejection reports `electivosRestantes`. Acceptance implies an elective with that id fitting in what remains. |
| Planner.AddElective | src/CurriculumMap.tsx:286-294 | Every rejected `onAdd` leaves the map unchanged. An accepted one adds only key `id`, stores `String(s)` under it, which reads back as the semester `s`, and keeps every other entry. |
| Planner.AddVerdictOfElective | src/CurriculumMap.tsx:290-293 | For a catalog elective, `onAdd` rejects exactly when its credits exceed `electivosRestantes`, and otherwise accepts. |
| Planner.FullCapRejects | src/CurriculumMap.tsx:290-293 | Once 27 or more credits are assigned, every elective worth credits is rejected with 0 remaining, and the map stays the same. |
| Planner.AddCountsCredits | src/CurriculumMap.tsx:294 | An accepted add of an unassigned elective raises the assigned credits by exactly its credits. |
| Planner.ReAddKeepsCredits | src/CurriculumMap.tsx:294 | Adding an already assigned elective again (moving it to another semester) leaves the assigned credits unchanged, whether the move is accepted or rejected. A move at a full cap is rejected (next row). |
| Planner.MoveAtFullCap | src/CurriculumMap.tsx:290-294 | With exactly 27 credits assigned, moving an assigned elective worth credits to another semester is rejected with 0 remaining, because `electivosRestantes` still counts its own credits. Quitar followed by the same add is accepted and places it in the new semester. |
| Planner.AddKeepsCap | src/CurriculumMap.tsx:290-294 | If the assigned credits are within 27 before `onAdd`, they are within 27 after it. |
| Planner.RemoveElective | src/CurriculumMap.tsx:434 | Quitar deletes key `id` and keeps every other key and value. |
| Planner.RemoveAbsent | src/CurriculumMap.tsx:434 | Quitar of a key that is not in the map changes nothing. |
| Planner.RemoveMakesAvailable | src/CurriculumMap.tsx:256-257 | After Quitar, the elective is back in `electivasDisponibles` and no longer counted as assigned. |
| Planner.RemoveKeepsCap | src/CurriculumMap.tsx:434 | Quitar keeps the assigned credits within 27 when they were. |
| Planner.AddThenRemove | src/CurriculumMap.tsx:294 | Quitar after `onAdd` of the same id leaves the map as Quitar alone would. |
| Planner.WriteObject | src/CurriculumMap.tsx:269 | `JSON.stringify` writes the map as an object with one member per key, each holding that key's value, and no key twice. |
| Planner.ParseObject | src/CurriculumMap.tsx:274 | `JSON.parse` reads an object's members into a map whose keys are exactly the member names, where a repeated name takes its last value. |
| Planner.ParseWriteRoundTrip | src/CurriculumMap.tsx:269-274 | Reading back the object written for a map gives that same map. |
| Planner.ImportReplacesWhole | src/CurriculumMap.tsx:274 | A file with `asignaciones` gives the same map whatever the current map was, so importing it twice is the same as once. Any other file leaves the map as it was. |
| Planner.ExportImportRoundTrip | src/CurriculumMap.tsx:268-274 | Importing the document `exportJSON` wrote restores the exported map, whatever the current map. The document goes through the object writer and reader above. |
| Planner.ImportCanBreakCap | src/CurriculumMap.tsx:274 | Import does not check the cap. If a catalog's electives carry more than 27 credits, a file assigning them all takes the empty map over the cap. |
| Planner.OfferedCourses | src/CurriculumMap.tsx:280-283 | The selector lists exactly the electives that meet all of these: in the catalog, unassigned, in the requested pool, passing the type and category filters, and no larger than `electivosRestantes`. |
| Planner.OptionLabel | src/CurriculumMap.tsx:284 | An option reads as the title, " — ", the category, then " (" + a numeral + " cr)". For non-negative credits the numeral reads back as the credits. |
| Planner.Offered | src/CurriculumMap.tsx:284 | One option per listed elective, in the same order and carrying its id. |
| Planner.SelectorDisabledIff | src/CurriculumMap.tsx:297 | The selector is disabled exactly when the assigned credits have reached 27. |
| Planner.OfferedPassesAdd | src/CurriculumMap.tsx:280-293 | For a well-formed catalog, every option the selector offers passes all of `onAdd`'s checks. |
| Planner.OfferedAddsCredits | src/CurriculumMap.tsx:280-294 | An offered elective is unassigned, and picking it raises the assigned credits by exactly its credits. |
| Planner.Step | src/CurriculumMap.tsx:274-434 | Cursada and Reiniciar touch only the completion set. `onAdd`, Quitar and import touch only the map. |
| Planner.StepKeepsCap | src/CurriculumMap.tsx:290-294 | Every action except import keeps the assigned credits within 27. |
| Planner.EmptyCapOk | src/CurriculumMap.tsx:227 | The empty map that a first visit starts from has 0 assigned credits. |
| Planner.RunKeepsCap | src/CurriculumMap.tsx:290-294 | Any sequence of actions without an import keeps the assigned credits within 27. |
| Sorting.Sort | src/CurriculumMap.tsx:252 | The sort returns a rearrangement of its input: the same elements, with the same multiplicities. |
| Sorting.SortSorted | src/CurriculumMap.tsx:252 | For a comparator that is a total preorder, the sort's output is in order. |
| Sorting.SortMembers | src/CurriculumMap.tsx:252 | An element is in the sorted list exactly when it was in the input. |
| View.SearchMatch | src/CurriculumMap.tsx:238-242 | A query that is all whitespace matches every course. Otherwise a course matches exactly when the lower-cased trimmed query occurs in its lower-cased title, code or category. |
| View.SearchIgnoresQueryCase | src/CurriculumMap.tsx:239 | Lower-casing the query never changes which courses match. |
| View.SearchFindsCode | src/CurriculumMap.tsx:241 | A query that trims to a course's code finds that course. |
| View.SemesterView | src/CurriculumMap.tsx:245-254 | `porSemestre` renders exactly when every required course the search keeps has a semester in 1..10. When it renders, its keys are exactly `SEMESTRES`. |
| View.WellFormedRenders | src/CurriculumMap.tsx:247 | With a well-formed catalog `porSemestre` never throws, whatever the map and query. |
| View.PlacedMembers | src/CurriculumMap.tsx:248-251 | The electives pushed into list `s` are exactly the search-matching electives whose entry is truthy and reads as `s`, each with `periodo` set to `s`. |
| View.ViewMembers | src/CurriculumMap.tsx:245-253 | List `s` holds exactly two kinds of course. (1) Search-matching required courses of semester `s`. (2) Search-matching electives placed in `s`, relabelled with semester `s`. |
| View.ViewSorted | src/CurriculumMap.tsx:252 | Each semester list is in title order when the title comparison is a total preorder. |
| View.ElectiveInOneList | src/CurriculumMap.tsx:248-251 | In a well-formed catalog, a listed elective and any listed course with the same id are the same entry in the same list. So an elective appears in at most one semester list, and no other course in any list carries its id. |
| View.ListIdsDistinct | src/CurriculumMap.tsx:245-253 | In a well-formed catalog no semester list holds two entries with the same id, so in particular no entry appears twice. |
| View.UnplacedCountedButHidden | src/CurriculumMap.tsx:250 | An elective with a truthy entry that does not read as 1..10 counts toward the assigned credits but appears in no list. |
| View.AddedElectiveShown | src/CurriculumMap.tsx:294 | After an accepted `onAdd` from the selector of semester `s`, a search-matching elective is listed in semester `s`. |
| View.RemovedElectiveHidden | src/CurriculumMap.tsx:434 | After Quitar, no semester list holds a course with that elective's id. |
| Shipped.DataRenders | src/CurriculumMap.tsx:247 | With `DATA` the per-semester view never throws. |
| Shipped.DataRunKeepsCap | src/CurriculumMap.tsx:290-294 | With `DATA`, every run of clicks without an import keeps the assigned elective credits within 27. |
| ProgressBar.Clamp | malla/src/components/ui/progress.tsx:8 | The width always lies in [0, 100]. A value already in range is kept. Negative values give 0, and values above 100 give 100. |
| ProgressBar.BarWidth | malla/src/components/ui/progress.tsx:7-8 | An absent `value` gives width 0. A present one gives its clamp. |
| ProgressBar.ClampIdempotent | malla/src/components/ui/progress.tsx:8 | Clamping twice is the same as clamping once. |
| ProgressBar.ClampMonotone | malla/src/components/ui/progress.tsx:8 | A larger value never gives a narrower bar. |

## Left out

- Loading and saving `completed` and `asignaciones` in localStorage (src/CurriculumMap.tsx:221-229) is browser I/O. The loaded state is any set or map. Only the empty map of a first visit is singled out (`Planner.EmptyCapOk`).
- Planner.WriteObject: models the JSON object as its list of members. The characters of the JSON text are not modelled, so escaping and the two-space indentation are left out. The `DATA` half of the document is kept as the course list itself, and the reader uses only `asignaciones`.
- The file plumbing of export and import is file and DOM I/O. This covers the Blob, URL, DOM input, `File.text()`, `JSON.parse` and `alert`. The model keeps only the document written and the resulting change of state.
- Planner.ImportAssignments: the map's values are taken to be strings. A hand-edited file with numbers, booleans or a non-object `asignaciones` is not modelled, because the component's own type (`Record<string, string>`) excludes it.
- Credits.ProgressPercent: computed with exact integer arithmetic. The source divides in floating point before `Math.round`. At 92 completed credits, 92 / 160 * 100 evaluates to 57.49999999999999, so the page shows 57 where the model gives 58. From 0 to 160 credits, 92 is the only count where the two differ.
- Strings.Lower: covers ASCII and Latin-1 upper-case letters only. Unicode letters outside Latin-1 (Greek, Cyrillic, ...) and the special mappings of `toLowerCase` are left alone by the model.
- Strings are sequences of Unicode scalar values. JavaScript strings are UTF-16, so a character outside the Basic Multilingual Plane is one character here but two code units there. A lone surrogate cannot be written at all. Titles and queries with such characters can differ in length and in `includes` positions.
- Strings.ParseDecimal: reads only plain decimal numerals. `Number` also accepts surrounding whitespace, a sign, a fraction such as "3.0", hexadecimal and exponents. An imported map using such forms would place electives the model leaves unplaced.
- Collation of `localeCompare` is a parameter. Only the total-preorder property is assumed, and only for sortedness.
- Planner.AddElective: takes the semester `s` as a natural number. The selectors are only rendered for `SEMESTRES`, so negative or fractional semesters never arise.
- `onAdd` compares against the `electivosRestantes` of the render that created the handler, while the state updater applies to the newest map. The model treats each action as happening on a freshly rendered state, so two clicks handled before a re-render are not modelled.
- Pure presentation code is not modelled. This covers `cn`, the styled components, the open/close toggles, the details panel, the pool listings, the per-semester kind/category filter of the displayed lists, `CLASIFICACIONES` and `TIPOS`, and all JSX.
- NaN and infinities in the `Progress` clamp are not modelled, because the value is a real number.
- Build configuration (vite.config.js, malla/vite.config.ts) is not modelled.
