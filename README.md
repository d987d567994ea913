# Pet hotel registry — a Dafny model of its logic

The application is a small React front end for a pet hotel. Owners register pets through an
intake form. A dashboard lists and counts an owner's pets. Staff search a directory and open
a record page. Under the markup sits a layer of plain logic, and this project models and
proves that layer:

- **Registry store** (`PetContext`, lib/pet-context.tsx): a list that starts as the seed
  `petDatabase`. Its only mutation, `addPet`, puts a record at the front.
- **Intake form** (components/add-pet-form.tsx), in four parts:
  - `AgeCalculator`: the age label `calculateAge` writes.
  - `IntakeTables`: the five code-to-label tables and their `table[code] || fallback`
    lookups.
  - `EmailShape`: the owner-email regular expression.
  - `VaccineEntries`, `Intake` and `AddPetForm`: the in-form lists, `validate`, the
    per-field error clearing and `handleSubmit`. `AddPetForm.Form` is a class holding the
    form's state, and its methods are the handlers.
- **Owner dashboard** (`Dashboard`, components/dashboard.tsx): `filteredPets` (search, then
  category chip) and the four `stats` counters.
- **Staff directory** (`StaffSearch`, components/staff-search.tsx): `results` (a seven-field
  text search plus exact species and sex filters over the seed list), the count label, and
  the "Limpiar filtros" reset on a class holding the three filter fields.
- **Staff record page** (`StaffPetDetail`, components/staff-pet-detail.tsx):
  `expiredVaccines`, `hasAlerts`, the zero-padded ID and the badges.
- **View router** (`Router`, app/page.tsx): the `currentView`/`selectedPet` state machine,
  its two handlers and the render guards.

The supporting modules model `Array.prototype.filter` and sublists (`Seqs`) and the
JavaScript string operations the code uses (`Text`): `trim`, ASCII `toLowerCase`,
`includes`, `padStart`, `split`, `parseInt` and `String(n)`. `Wrappers` holds `Option`,
which stands for `null`, `undefined` and `NaN`.

The `Pet` and `Vaccine` types and the seed `petDatabase` are declared in lib/pet-data, which
is not part of this model. `PetData` declares the records with the fields the intake form
fills in. The seed is a parameter wherever it is used.

The staff directory searches the static seed list, not the store
(components/staff-search.tsx:26,39), so records added through the form never appear there.

## Model

| member | source | states |
|---|---|---|
| PetContext.PetStore.constructor | lib/pet-context.tsx:13-14 | the store starts as exactly the seed list, with nothing added |
| PetContext.PetStore.AddPet | lib/pet-context.tsx:16-18 | `addPet(p)` makes the list `[p] + prev` (any record accepted, duplicate ids included), keeps the store invariant, and records `p` as the latest addition |
| PetContext.AfterAddsOrder | lib/pet-context.tsx:17 | after additions `r1 … rn` the list is `[rn, …, r1] + seed` |
| PetContext.SeedIsSuffix | lib/pet-context.tsx:14-17 | the length grows by one per addition and the seed is always the unchanged tail |
| PetContext.AfterAddsUniqueIds | lib/pet-context.tsx:16-18 | if the seed has unique ids and each added record's id is fresh when it is added, ids stay unique (nothing else checks this) |
| PetContext.AddThree | lib/pet-context.tsx:16-18 | three `addPet` calls on a new store give `[r3, r2, r1] + petDatabase` |
| AgeCalculator.ParseBirthDate | components/add-pet-form.tsx:102-107 | the birth date is rejected before parsing exactly when it does not have two '/' separators; the next lemmas state what it gives otherwise |
| AgeCalculator.ParseDateText | components/add-pet-form.tsx:102-107 | "D/M/Y" written from three numbers, each with any number of leading zeros (the "DD/MM/AAAA" of line 481, such as "05/06/2015"), parses to day D, month M and year Y, a year from 0 to 99 being read as 1900-1999 |
| AgeCalculator.DateTextAge | components/add-pet-form.tsx:101-119 | for such a text naming a real day, padded or not, `calculateAge` gives the age label of that date |
| AgeCalculator.PaddedExampleParses | components/add-pet-form.tsx:481 | a date typed as the "DD/MM/AAAA" placeholder asks, "15/06/2015", parses to 15 June 2015 |
| AgeCalculator.NotNumericParts | components/add-pet-form.tsx:102-107 | the three `parseInt` calls give a NaN exactly when there are three parts and one of them has no digit after its blanks and sign |
| AgeCalculator.NotNumericAge | components/add-pet-form.tsx:104-118 | such a birth date gives the label "NaN anos" |
| AgeCalculator.CalculateAge | components/add-pet-form.tsx:101-119 | `calculateAge`: "0 anos" for a wrong shape, "NaN anos" for a NaN part, otherwise the label of the parsed date; its meaning is stated by WrongShapeAge, DateTextAge, NotNumericAge, YearsAge and MonthsAge |
| AgeCalculator.AgeOf | components/add-pet-form.tsx:109-118 | the label of a parsed date; YearsAge, MonthsAge, FutureBirthAge and AgeOfNumber state its meaning |
| AgeCalculator.WrongShapeAge | components/add-pet-form.tsx:102-103 | a birth date that does not split into three parts gives exactly "0 anos" |
| AgeCalculator.CompletedYearsIsAnniversaryCount | components/add-pet-form.tsx:109-113 | the year difference with the decrement is the number of birthdays reached: the n-th has come and the (n+1)-th has not |
| AgeCalculator.YearsAge | components/add-pet-form.tsx:114-118 | from the first birthday on, the label is "1 ano" for one year and "N anos" for N ≥ 2 |
| AgeCalculator.MonthsAge | components/add-pet-form.tsx:114-116 | before the first birthday the label is "1 mes" when `(yearDiff*12 + monthDiff) <= 1` (zero and negative included) and "N meses" otherwise |
| AgeCalculator.FutureBirthAge | components/add-pet-form.tsx:114-116 | a birth date after today gives "1 mes" |
| AgeCalculator.MonthsBound | components/add-pet-form.tsx:114-116 | before the first birthday the month count is at most 12, and is 12 exactly in the birth month one year on, before the birth day |
| AgeCalculator.AgeOfNumber | components/add-pet-form.tsx:114-118 | the dashboard's `parseInt` (no radix) of a parsed-date label reads back the completed years, or the (at least 1) months |
| AgeCalculator.FallbackNumbers | components/add-pet-form.tsx:103 | the fallback label "0 anos" reads back as 0, and "NaN anos" as NaN (never senior) |
| IntakeTables.Get | components/add-pet-form.tsx:66-99 | `table[code]` on a table written as its entries; GetFindsFirst states its meaning |
| IntakeTables.GetFindsFirst | components/add-pet-form.tsx:66-99 | `table[code]` is undefined exactly when no entry has the code, and otherwise is the label of that entry |
| IntakeTables.GetNoEmptyLabel | components/add-pet-form.tsx:66-99 | a table without empty labels gives a non-empty label for every code it knows |
| IntakeTables.Lookup | components/add-pet-form.tsx:248 | `table[code] \|\| fallback` is the label for a known code and the fallback for an unknown code or an empty label |
| IntakeTables.TablesHaveNoEmptyLabel | components/add-pet-form.tsx:66-99 | none of the five tables has an empty label |
| IntakeTables.HealthStatusIsCoarse | components/add-pet-form.tsx:66-71 | the health status stored by line 258 is always "Saludable" or "Cuidado Especial" |
| EmailShape.EmailShapeCorrect | components/add-pet-form.tsx:221 | the scan accepts exactly the strings `^[^\s@]+@[^\s@]+\.[^\s@]+$` matches: local@host.tld, each part non-empty with no whitespace and no '@' |
| EmailShape.ScanGivesPattern | components/add-pet-form.tsx:221 | a string the scan accepts splits as local@host.tld |
| EmailShape.PatternGivesScan | components/add-pet-form.tsx:221 | every local@host.tld string is accepted by the scan |
| VaccineEntries.Toggled | components/add-pet-form.tsx:173-179 | `toggleCondition(c)` makes `c` present exactly when it was absent and leaves every other label as it was; an absent `c` is appended at the end, and removing a present one keeps the rest in order |
| VaccineEntries.ToggledNoDuplicates | components/add-pet-form.tsx:173-179 | toggling never introduces a duplicate label |
| VaccineEntries.ToggleTwiceAbsent | components/add-pet-form.tsx:173-179 | toggling an absent label twice restores the list exactly |
| VaccineEntries.ToggleTwicePresent | components/add-pet-form.tsx:173-179 | toggling a present label twice keeps the same labels, with that label moved to the end |
| VaccineEntries.Added | components/add-pet-form.tsx:182-194 | `addVaccine` keeps every row and appends one with the new id, empty name, date and vet id, status "Vigente" and editing on |
| VaccineEntries.Updated | components/add-pet-form.tsx:196-200 | `updateVaccine`'s `map` over the rows; UpdatedOnlyMatching states its meaning |
| VaccineEntries.UpdatedOnlyMatching | components/add-pet-form.tsx:196-200 | `updateVaccine` keeps the length, the ids and every other row; the matching rows get exactly the edited field |
| VaccineEntries.EditToggled | components/add-pet-form.tsx:206-210 | `toggleEditVaccine`'s `map` over the rows; EditToggledOnlyMatching states its meaning |
| VaccineEntries.EditToggledOnlyMatching | components/add-pet-form.tsx:206-210 | `toggleEditVaccine` flips only `isEditing` on the matching rows and keeps the length; doing it twice is the identity |
| VaccineEntries.Removed | components/add-pet-form.tsx:202-204 | `deleteVaccine`'s `filter` over the rows; RemovedSpec states its meaning |
| VaccineEntries.RemovedSpec | components/add-pet-form.tsx:202-204 | `deleteVaccine` leaves no row with the id, keeps the others in order, and with unique ids removes exactly one row when the id is present |
| VaccineEntries.EditsKeepKeysUnique | components/add-pet-form.tsx:182-210 | all four list edits keep row ids unique, given a fresh id for `addVaccine` |
| Intake.WithText | components/add-pet-form.tsx:138-160 | typing into one text input changes that input only: every other text input, the five select codes, the three switches, the conditions and the vaccine rows keep their values |
| Intake.MessageTextEmpty | components/add-pet-form.tsx:215-227 | only a cleared entry has empty text, so an error is displayed exactly when it is not cleared; the two email messages differ |
| Intake.SetError | components/add-pet-form.tsx:357 | `{...prev, k: m}` sets key `k` to `m` and keeps every other key |
| Intake.FirstIncomplete | components/add-pet-form.tsx:225 | the row `find` stops at: the first with a blank name or date, no earlier row being incomplete, or past the end when none is |
| Intake.FindIncompleteNone | components/add-pet-form.tsx:225-226 | `find` finds nothing exactly when every row is complete |
| Intake.ErrorKeyPresent | components/add-pet-form.tsx:213-228 | each key of `newErrors` holds exactly the outcome of that key's check |
| Intake.ValidationErrors | components/add-pet-form.tsx:213-228 | the `newErrors` object `validate` builds; ErrorKeyPresent, ValidationErrorKeys and ValidIffNoErrors state its meaning |
| Intake.ValidIffNoErrors | components/add-pet-form.tsx:213-231 | `validate` leaves no key exactly when every required field is non-blank after trimming, the email matches, and every vaccine row has a non-blank name and date |
| Intake.ValidationErrorKeys | components/add-pet-form.tsx:215-227 | a field's key is present exactly when its trimmed value is empty (for the email, or when it does not match), with the matching message; the vaccines key is present exactly when some row is incomplete |
| Intake.EmailErrorMessage | components/add-pet-form.tsx:220-222 | "Ingresa un correo valido" is set exactly when the email is non-blank but the untrimmed value does not match, so surrounding spaces fail |
| Intake.ClearShownError | components/add-pet-form.tsx:357 | the edit handler of a required input (the same pattern recurs at lines 401, 442, 479, 508 and 531) blanks that input's displayed error, keeps its key, and changes no other key; with no displayed error, `errors` is unchanged |
| Intake.TrimOrTrimmed | components/add-pet-form.tsx:259-265 | `s.trim() \|\| fallback` is the fallback for a blank input and the trimmed input otherwise, and never empty |
| Intake.RecordOf | components/add-pet-form.tsx:245-269 | the `newPet` literal built from the form and an age label; NewPetTextFields, NewPetCodes and NewPetVaccines state its meaning |
| Intake.NewPet | components/add-pet-form.tsx:245-269 | `newPet` with the age `calculateAge` gives on the day `now`; ValidFormGivesCompleteRecord states its meaning |
| Intake.NewPetTextFields | components/add-pet-form.tsx:247-268 | every typed text field of the record is trimmed; a blank optional field becomes "Ninguna conocida", "Ninguno" or "Sin especificar" |
| Intake.ValidFormGivesCompleteRecord | components/add-pet-form.tsx:236-268 | a record built after a passing validation has every required field non-empty |
| Intake.ValidFormGivesCompleteVaccines | components/add-pet-form.tsx:236-243 | through the check at line 225, a record built after a passing validation has a non-blank name and date on every vaccine |
| Intake.NewPetCodes | components/add-pet-form.tsx:248-266 | species, sex, diet and activity map to their labels and fall back to the raw code; health status falls back to "Saludable"; the picture is the cat's exactly for the code "gato" |
| Intake.NewPetVaccines | components/add-pet-form.tsx:238-243 | the record's vaccines are the rows in order, with name, date and status as typed and the vet id "N/A" only when it was empty |
| AddPetForm.Form.constructor | components/add-pet-form.tsx:138-171 | the form mounts with every state at its initial value and no errors, and its invariant holds: vaccine ids distinct, no condition twice; every handler keeps it |
| AddPetForm.Form.EditText | components/add-pet-form.tsx:357 | a text edit (this handler and those at lines 401, 442, 479, 508 and 531) stores the value and, for a required input, clears only that input's displayed error |
| AddPetForm.Form.EditCode | components/add-pet-form.tsx:139-163 | a select stores its code and touches nothing else |
| AddPetForm.Form.EditFlag | components/add-pet-form.tsx:148-164 | a switch stores its value and touches nothing else |
| AddPetForm.Form.ToggleCondition | components/add-pet-form.tsx:173-179 | the conditions list becomes its toggled form; nothing else changes |
| AddPetForm.Form.AddVaccine | components/add-pet-form.tsx:182-194 | the vaccine list gets its new blank row under a fresh id; nothing else changes |
| AddPetForm.Form.UpdateVaccine | components/add-pet-form.tsx:196-200 | the vaccine list becomes its updated form; nothing else changes |
| AddPetForm.Form.DeleteVaccine | components/add-pet-form.tsx:202-204 | the vaccine list loses the rows with that id, which under the form's invariant is exactly one row when the id is present and none otherwise; nothing else changes |
| AddPetForm.Form.ToggleEditVaccine | components/add-pet-form.tsx:206-210 | the vaccine list has the edit flag toggled on the rows with that id; nothing else changes |
| AddPetForm.CollectErrors | components/add-pet-form.tsx:214-228 | the key-by-key construction of `newErrors` yields exactly the validation errors of the form |
| AddPetForm.Form.Validate | components/add-pet-form.tsx:213-231 | `errors` becomes the validation errors, and the answer is true exactly when there are none, which is exactly when the form is valid |
| AddPetForm.Form.HandleSubmit | components/add-pet-form.tsx:235-272 | `errors` becomes the validation errors and the submission goes ahead exactly when the form is valid; then `addPet` puts the assembled record at the front of the store and the success flag is raised, otherwise the store and the flag are untouched |
| AddPetForm.Form.Finish | components/add-pet-form.tsx:236-272 | after validation, either nothing or exactly one addition of the assembled record plus the success flag |
| AddPetForm.AddRecord | components/add-pet-form.tsx:245-271 | `addPet(newPet)` with the record built from the entered values |
| Dashboard.SearchStep | components/dashboard.tsx:43-50 | the search step of `filteredPets`; SearchStepIsFilter states its meaning |
| Dashboard.CategoryStep | components/dashboard.tsx:52-55 | the category step of `filteredPets`; CategoryStepIsFilter states its meaning |
| Dashboard.FilteredPets | components/dashboard.tsx:40-58 | `filteredPets`; FilteredPetsIsFilter and FilteredPetsSublist state its meaning |
| Dashboard.SearchStepIsFilter | components/dashboard.tsx:43-50 | the search step filters by the name-or-breed test only when the trimmed query is non-empty |
| Dashboard.CategoryStepIsFilter | components/dashboard.tsx:52-55 | "Perros", "Gatos", "Sano" and "Senior" filter by their test; "Todos" and any other value keep the list |
| Dashboard.FilteredPetsIsFilter | components/dashboard.tsx:40-58 | `filteredPets` is one filter by the conjunction of the search and the category tests |
| Dashboard.FilteredPetsSublist | components/dashboard.tsx:40-58 | `filteredPets` is an order-preserving sublist of `pets`, holding exactly the records that pass both tests |
| Dashboard.StepsCommute | components/dashboard.tsx:43-55 | running the category step before the search step gives the same list |
| Dashboard.BlankSearchShowsAll | components/dashboard.tsx:43-57 | a blank or all-space query with "Todos" lists every record |
| Dashboard.SeniorOfLabel | components/dashboard.tsx:55 | an age "N<unit>" (unit not starting with a digit, and not with 'x' or 'X' after a 0) is senior exactly when N ≥ 7; the unit is ignored |
| Dashboard.HexAgeSenior | components/dashboard.tsx:55 | `parseInt` without a radix reads "0x1F anos" as 31, so that age is senior |
| Dashboard.EightYearsSenior | components/dashboard.tsx:55 | "8 anos" is senior |
| Dashboard.SixMonthsNotSenior | components/dashboard.tsx:55 | "6 meses" is not senior |
| Dashboard.ElevenMonthsSenior | components/dashboard.tsx:55 | "11 meses" is senior |
| Dashboard.NoNumberNotSenior | components/dashboard.tsx:55 | an age with no digit after the blanks and sign is never senior (NaN ≥ 7 is false) |
| Dashboard.StatCounts | components/dashboard.tsx:60-65 | the four `stats` counters; CountsBounded and CountsMatchChips state their meaning |
| Dashboard.Stats | components/dashboard.tsx:60-65 | the four stat cards; CardsReadBack states their meaning |
| Dashboard.CountsBounded | components/dashboard.tsx:60-65 | the healthy, expired-vaccine and senior counters never exceed the total, which is the store's length; the healthy counter equals the total exactly when every pet is "Saludable" |
| Dashboard.CountsMatchChips | components/dashboard.tsx:54-64 | with a blank search the healthy and senior counters equal the sizes of the "Sano" and "Senior" lists |
| Dashboard.CardsReadBack | components/dashboard.tsx:60-65 | each card's `String(n)` value reads back as its counter |
| StaffSearch.Results | components/staff-search.tsx:38-63 | `results`; ResultsSpec states its meaning |
| StaffSearch.ResultsSpec | components/staff-search.tsx:38-63 | `results` is an order-preserving sublist of the seed list holding exactly the records that pass the text test (when the trimmed query is non-empty), the species filter and the sex filter |
| StaffSearch.UnfilteredResults | components/staff-search.tsx:41-60 | a blank query with both filters on "all" lists the whole seed |
| StaffSearch.CountLabelSpec | components/staff-search.tsx:147 | the count label reads back as the count, and its word is "resultado" exactly for one result |
| StaffSearch.Directory.constructor | components/staff-search.tsx:34-36 | mounted with an empty query and both filters on "all" |
| StaffSearch.Directory.NotOfferedListsAll | components/staff-search.tsx:132 | when "Limpiar filtros" is not offered, nothing is filtered |
| StaffSearch.Directory.SetSearchQuery | components/staff-search.tsx:34 | the search box sets only the query |
| StaffSearch.Directory.SetSpeciesFilter | components/staff-search.tsx:35 | the species select sets only the species filter |
| StaffSearch.Directory.SetSexFilter | components/staff-search.tsx:36 | the sex select sets only the sex filter |
| StaffSearch.Directory.ClearFilters | components/staff-search.tsx:137-141 | "Limpiar filtros" sets "", "all", "all"; the results are then the whole seed and the button is no longer offered |
| StaffPetDetail.ExpiredVaccines | components/staff-pet-detail.tsx:32 | `expiredVaccines`; ExpiredVaccinesSpec states its meaning |
| StaffPetDetail.ExpiredVaccinesSpec | components/staff-pet-detail.tsx:32 | `expiredVaccines` is the order-preserving sublist of vaccines with status "Vencida", non-empty exactly when one is expired |
| StaffPetDetail.HasAlerts | components/staff-pet-detail.tsx:33-36 | `hasAlerts`; HasAlertsIff states its meaning |
| StaffPetDetail.HasAlertsIff | components/staff-pet-detail.tsx:33-36 | alerts show exactly when a disease is recorded, a vaccine is expired, or allergies are not "Ninguna conocida"; being a service animal has no effect |
| StaffPetDetail.DisplayId | components/staff-pet-detail.tsx:58 | the zero-padded ID; DisplayIdSpec states its meaning |
| StaffPetDetail.DisplayIdSpec | components/staff-pet-detail.tsx:58 | the ID is left-padded with "0" to five characters; an id of five or more is shown unchanged |
| StaffPetDetail.BadgeTones | components/staff-pet-detail.tsx:245-250 | the health badge is green exactly for "Saludable" and amber otherwise; the allergy badge is red exactly when allergies are not "Ninguna conocida", and absent otherwise |
| StaffPetDetail.ExpiredTitleSpec | components/staff-pet-detail.tsx:282 | the badge text starts with the count and ends in "S" exactly when the count is above one |
| StaffPetDetail.ExpiredBadge | components/staff-pet-detail.tsx:280-284 | the expired-vaccines badge, if shown; ExpiredBadgeSpec states its meaning |
| StaffPetDetail.ExpiredBadgeSpec | components/staff-pet-detail.tsx:280-284 | the expired badge appears exactly when some vaccine is expired; its number is the count, with the "S" suffix exactly when the count is above one |
| StaffPetDetail.UpcomingCountsBadges | components/dashboard.tsx:63 | the dashboard's "Proximas Vacunas" counter is the number of pets whose record page shows the expired badge |
| Router.Step | app/page.tsx:17-29 | `handleNavigate(v)` sets only the view; `handleSelectPet(p, t)` sets the pet and the target view together |
| Router.SelectionPersists | app/page.tsx:14-29 | once a pet is selected, no sequence of handler calls makes `selectedPet` null again |
| Router.NavigationOnly | app/page.tsx:17-20 | navigating alone never changes the selection, and ends on the last view asked for |
| Router.Screens | app/page.tsx:33-46 | the screens the render guards let through; ScreensExclusive and SelectShowsDetail state their meaning |
| Router.ScreensExclusive | app/page.tsx:33-46 | at most one screen renders, the one the current view names; only the two detail views render nothing, and only while no pet is selected |
| Router.SelectShowsDetail | app/page.tsx:22-43 | after `handleSelectPet` exactly the requested detail screen renders, with that pet |
| Router.Home.constructor | app/page.tsx:14-15 | the app starts on "landing" with no pet selected |
| Router.Home.HandleNavigate | app/page.tsx:17-20 | only `currentView` changes, to the requested view |
| Router.Home.HandleSelectPet | app/page.tsx:22-29 | `selectedPet` and `currentView` change in one transition |
| Seqs.Filter | components/dashboard.tsx:45 | `filter` keeps exactly the elements that pass, all passing, none added |
| Seqs.FilterMultiplicity | components/dashboard.tsx:45 | each passing value occurs in the result as many times as in the input, and a failing one not at all |
| Seqs.FilterIsSublist | components/dashboard.tsx:45 | the result of `filter` is an order-preserving sublist of its input |
| Seqs.FilterCommutes | components/dashboard.tsx:45-55 | two filters in either order give the same list |
| Text.Trim | components/add-pet-form.tsx:215 | `trim()` gives a string with no whitespace at either end |
| Text.TrimDropsOnlySpace | components/add-pet-form.tsx:215 | `trim()` gives a contiguous slice of the input, and everything it drops before and after is whitespace |
| Text.TrimIdempotent | components/add-pet-form.tsx:247 | trimming twice is trimming once |
| Text.BlankIffTrimEmpty | components/add-pet-form.tsx:215 | `!s.trim()` holds exactly when `trim` empties the string |
| Text.ToLower | components/dashboard.tsx:44 | `toLowerCase` maps every character and keeps the length |
| Text.Contains | components/dashboard.tsx:47 | `includes`; ContainsAt states its meaning |
| Text.ContainsAt | components/dashboard.tsx:47 | `includes` holds exactly when the needle occurs at some index |
| Text.PadStart | components/staff-pet-detail.tsx:58 | `padStart(n, c)` ends with the string and fills in front of it with `c` up to length n |
| Text.Split | components/add-pet-form.tsx:102 | `split("/")` gives one part more than there are separators, none containing one |
| Text.JoinSplit | components/add-pet-form.tsx:102 | joining the parts of `split` gives the string back |
| Text.ParseLeadingInt | components/add-pet-form.tsx:104-106 | `parseInt(s, 10)`; ParseRendered states its meaning |
| Text.ParsePadded | components/add-pet-form.tsx:104-106 | `parseInt(s, 10)` reads a number typed with leading zeros and followed by a non-digit as that number ("05" is 5) |
| Text.ParseRendered | components/add-pet-form.tsx:104-106 | `parseInt(s, 10)` of a rendered number followed by a non-digit gives the number |
| Text.ParseInt | components/dashboard.tsx:55 | `parseInt(s)` with no radix; ParseIntDecimal and ParseIntRendered state its meaning |
| Text.ParseIntDecimal | components/dashboard.tsx:55 | without a "0x" or "0X" after the blanks and sign, `parseInt(s)` reads as `parseInt(s, 10)` |
| Text.ParseIntRendered | components/dashboard.tsx:55 | `parseInt(s)` of a rendered number followed by a non-digit (and not by 'x' or 'X' after a 0) gives the number |
| Text.NatToStringValue | components/dashboard.tsx:61 | the digits `String(n)` writes have the value n |

## Left out

- Markup, styling, icons, images, the select, input and badge widgets, and buttons with no
  handler have no behaviour to state. The presentational components (owner record page,
  landing page, sidebar) are out of scope.
- Browser side effects: `window.scrollTo` (app/page.tsx) and `window.print` (the record
  page).
- The success timer. The 1.5-second `setTimeout` that navigates to the dashboard is left
  out; only the success flag is modelled.
- `crypto.randomUUID()` is a parameter (`newId`), and `new Date()` is a `now` date
  parameter. A fresh vaccine id is required of the caller.
- AddPetForm.Form.Finish: the model raises the success flag before calling `addPet`, not
  after. React applies both state updates together once the handler returns, so nobody
  sees the order.
- AddPetForm.Form.HandleSubmit: requires that a valid form's birth date, once its three
  parts parse, names a real calendar day. The source lets `new Date` roll an impossible day
  or month over into the next one, and that roll-over is not modelled.
- The three birth-date `parseInt` calls pass radix 10 (components/add-pet-form.tsx:104-106)
  and are modelled as `Text.ParseLeadingInt`: blanks, a sign, decimal digits. The dashboard's
  `parseInt(p.age)` has no radix (components/dashboard.tsx:55,64) and is modelled as
  `Text.ParseInt`, which also reads a "0x"/"0X" hexadecimal prefix. Neither accepts
  "Infinity", and digits beyond the float precision of a JavaScript number are not rounded.
- AgeCalculator.CalculateAge: dates outside the JavaScript `Date` range (a year beyond
  275760 or before -271821) make `new Date` an invalid date and the label "NaN anos"; the
  model bounds neither the year nor the age, and gives the label of the calendar
  difference instead.
- `toLowerCase` is ASCII only. There is no Unicode case mapping or normalisation.
- The `errors` object is a record of seven optional entries, one per key the form ever
  writes, not an open dictionary. An entry holds a message value whose text
  `Intake.MessageText` gives.
- The code tables are lists of entries in source order rather than JavaScript objects.
  Prototype keys such as "constructor" are not modelled.
- VaccineEntries.UpdatedOnlyMatching: `updateVaccine` is modelled for the four fields the
  form edits (name, date, vet id, status). Its type would also allow setting `id` or
  `isEditing` to a string, which the form never does.
- The contents of the seed `petDatabase` and the `View` type's declaration (lib/pet-data)
  are not part of this model.
- `usePetContext` throwing outside a provider, and the framework plumbing (`useState`,
  `useMemo`, context creation), are left out.
