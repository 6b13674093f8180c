# snowops-acts: a Dafny model of the act billing engine

The snowops acts service bills snow-disposal work. For a contract and a period it:

- collects the trips that have not been billed yet;
- prices their volume with VAT;
- stores an *act* (the billing document), each of whose trips is claimed through the `act_trip` table;
- renders the act as a PDF.

Acts of landfill-service contracts wait for the landfill to approve or reject them. A separate export path renders trip reports as spreadsheets or PDFs behind an HTTP handler.

This project models that core as pure functions over immutable data. The store is a `Ledger` value, and every operation returns the ledger it leaves behind.

| file | module | models |
|---|---|---|
| `wrappers.dfy` | `Wrappers` | `Option`, `Result` |
| `seqs.dfy` | `Seqs` | concatenation facts shared by the list proofs |
| `text.dfy` | `Text`, `TrimSlices` | the `strings` functions the code relies on: `TrimSpace`, `Split`, `Join`, ASCII case mapping, and `%d` for naturals |
| `domain.dfy` | `Domain` | ids, instants, principals, contracts, acts, and the error chain of `internal/service/errors.go` with `errors.Is` through `%w` |
| `act_repository.dfy` | `ActRepository` | `internal/repository/act_repository.go` over a `Ledger` (trips, acts, claims, contracts, organizations, contract polygons) |
| `act_service.dfy` | `ActService` | `internal/service/act_service.go` |
| `billing_properties.dfy` | `BillingProperties` | properties across any sequence of service calls |
| `config.dfy` | `Config` | `internal/config/config.go` |
| `report_model.dfy` | `ReportModel` | `internal/model/report.go` |
| `excel_generator.dfy` | `ExcelGenerator` | the naming and volume logic of `internal/excel/generator.go` |
| `pdf_generator.dfy` | `PdfGenerator` | the text and volume logic of `internal/pdf/generator.go` |
| `handler.dfy` | `Handler` | `internal/http/handler.go` |

The following become parameters of the model:

- the clock, together with its `20060102` rendering;
- the id and `created_at` that the database assigns to a new act;
- the PDF renderer;
- `uuid.Parse`, `time.Parse` and the report service called by the handler;
- the values viper reads from the environment.

The database's unique indexes are modelled as the failure modes of `CreateAct`:

- the act primary key;
- `uq_act_number`;
- `uq_act_trip_trip_id`, from `internal/db/migrations.go`.

Three behaviours of the code are modelled as written:

- **A failed render leaves the act stored.** `GenerateActPDF` commits the act and its trip claims before it calls the renderer. If rendering fails, the caller gets an error, but the act is already stored and its trips are billed.
- **One act per contract per day.** The act number is the prefix, the contract tag and the day, so it does not depend on the period billed. `uq_act_number` therefore refuses a second act for the same contract on the same day, even for a different period, and nothing is stored. `BillingProperties.SameDayRegenerationFails` states this.
- **The pdf generator reads three undeclared trip fields.** It reads `EventTime`, `Plate` and `SnowVolumeM3` from `model.TripDetail`, which declares none of them. The model's `TripDetail` carries them as three extra fields, `eventTime`, `plate` and `snowVolumeM3`.

## Model

| member | source | states |
|---|---|---|
| Domain.DateOnly | internal/service/act_service.go:326-332 | the result is the midnight that starts the instant's day: no later than the instant and less than a day before it; the zero time stays zero |
| Domain.DateOnlyOrder | internal/service/act_service.go:90-97 | comparing two truncated instants is the same as comparing their calendar days |
| Domain.InvalidInputError | internal/service/errors.go:8 | a `%w`-wrapped invalid-input error is found by `errors.Is` as invalid input and as no other sentinel; its message is `invalid input: <detail>` |
| Text.SplitJoin | internal/config/config.go:122 | splitting the separator-join of separator-free pieces gives the pieces back |
| Text.NatToStringInjective | internal/excel/generator.go:196 | distinct counters print as distinct decimal texts |
| Text.SplitConcat | internal/config/config.go:122 | splitting at a separator splits the text on each side independently, in order |
| Text.SplitPrepend | internal/config/config.go:122 | separator-free text in front of a value only lengthens the first piece |
| Text.SplitAppend | internal/config/config.go:122 | separator-free text after a value only lengthens the last piece |
| TrimSlices.TrimIsSlice | internal/service/act_service.go:350 | what `strings.Trim` leaves is a contiguous run of the input |
| TrimSlices.TrimMappedIsSlice | internal/service/act_service.go:335-350 | trimming a rune-by-rune image keeps the image of a contiguous run of the input, and everything cut off on either side maps to a trimmed rune |
| TrimSlices.TrimSpaceIsSlice | internal/config/config.go:118 | `strings.TrimSpace` keeps a contiguous run of the input and cuts off only white space at either end |
| TrimSlices.TrimSplit | internal/config/config.go:118 | a trimmed string is the middle of a dropped front and a dropped back |
| TrimSlices.TrimUnique | internal/config/config.go:118 | dropped runs around a string whose ends are kept are exactly what trimming removes |
| TrimSlices.TrimPadded | internal/config/config.go:118 | adding dropped runes at either end does not change what trimming keeps |
| TrimSlices.TrimSpacePadded | internal/config/config.go:118-125 | adding white space at either end does not change what `strings.TrimSpace` keeps |
| Config.ParseList | internal/config/config.go:117-131 | a blank value gives no items; every item is non-empty and already trimmed; there is at most one item more than there are commas |
| Config.TrimSpaceCount | internal/config/config.go:118-122 | trimming the raw value never adds commas, so the item bound holds for the raw text |
| Config.KeepTrimmedOfItems | internal/config/config.go:123-130 | the trim-and-drop loop keeps a list of trimmed, non-empty, comma-free items unchanged |
| Config.ParseListJoin | internal/config/config.go:117-131 | parsing the comma-join of such items returns exactly those items in order (round trip) |
| Config.KeepTrimmedAppend | internal/config/config.go:123-130 | the trim-and-drop loop works piece by piece: the items of two lists together are the items of the first followed by those of the second |
| Config.ParseListSplitsRaw | internal/config/config.go:117-131 | for every input, the items are the trimmed, non-empty comma-separated pieces of the raw value, in input order; trimming the whole value first changes nothing |
| Config.ParseListConcat | internal/config/config.go:117-131 | for every two values, the items of `a,b` are the items of `a` followed by the items of `b` |
| Config.ParseListOfPiece | internal/config/config.go:117-131 | a value without a comma gives no item when blank, otherwise exactly its trimmed text |
| Config.FromEnv | internal/config/config.go:53-74 | the valid statuses are the parsed list of `ACTS_VALID_STATUSES` |
| Config.ApplyDefaults | internal/config/config.go:76-96 | each missing setting gets its default (`development`, `0.0.0.0`, 7089, 12.0, `["OK"]`, `ACT`, the work description); a non-positive VAT rate counts as missing; present values are kept; database and secret settings are untouched |
| Config.ApplyDefaultsEstablishes | internal/config/config.go:76-96 | after the defaults every defaulted setting is present and the VAT rate is positive; applying the defaults again changes nothing; a configuration that already has every value is left as it is |
| Config.Validate | internal/config/config.go:104-115 | a missing DSN is reported first, then a missing secret; the configuration is valid exactly when both are present and the VAT rate is not negative |
| Config.Load | internal/config/config.go:41-102 | loading fails exactly when the DSN or the access secret is missing, with the first of the two messages; a loaded configuration has every default in place, so the VAT check of `validate` can never fire |
| ActRepository.Counterparty | internal/repository/act_repository.go:61-66 | the counterparty columns come from the contractor organization when it exists, otherwise from the landfill organization, otherwise they are empty |
| ActRepository.GetContract | internal/repository/act_repository.go:23-121 | a contract is found exactly when the id is not nil, the contract exists and its customer organization exists; otherwise the result is `RecordNotFound`; a null contractor id reads as the nil id; the name, prices, dates, type and landfill are those of the row; the contractor columns are the counterparty's, and the customer is the creating organization |
| ActRepository.GetContractPolygonIds | internal/repository/act_repository.go:321-334 | a contract without polygon links has no polygons |
| ActRepository.ContractTrip | internal/repository/act_repository.go:129-134 | a contract trip is billed by its entry volume, a missing one counting as 0 |
| ActRepository.LandfillTrip | internal/repository/act_repository.go:180-184 | a landfill trip is billed by entry volume minus exit volume, each missing one counting as 0 |
| ActRepository.InsertByEntry | internal/repository/act_repository.go:159 | inserting into a list sorted by entry time keeps it sorted and adds exactly that trip (multiset) |
| ActRepository.SortByEntry | internal/repository/act_repository.go:159 | the result is sorted by entry time and is a permutation of the input |
| ActRepository.ListTripsForPeriod | internal/repository/act_repository.go:123-166 | a trip is listed if and only if it belongs to a ticket of the contract, entered in `[from, to)`, is unclaimed and has an allowed status (any status when the list is empty); the listing is sorted by entry time |
| ActRepository.ListTripsForLandfillContract | internal/repository/act_repository.go:169-216 | with no polygons, nothing is listed; otherwise a trip is listed if and only if it is at one of the polygons, entered in `[from, to)`, is unclaimed and has an allowed status; sorted by entry time |
| ActRepository.SelectContractTripsDistinct | internal/repository/act_repository.go:129-141 | over trip rows with distinct ids, the contract filter yields trips with distinct ids |
| ActRepository.SelectLandfillTripsDistinct | internal/repository/act_repository.go:180-191 | over trip rows with distinct ids, the landfill filter yields trips with distinct ids |
| ActRepository.InsertKeepsDistinct | internal/repository/act_repository.go:159 | inserting a trip whose id is new into a sorted list of distinct ids keeps the ids distinct |
| ActRepository.SortKeepsDistinct | internal/repository/act_repository.go:159 | ordering by entry time keeps ids distinct |
| ActRepository.ListTripsForPeriodDistinct | internal/repository/act_repository.go:123-166 | when the trips table has unique ids, the contract listing names each trip at most once |
| ActRepository.ListTripsForLandfillContractDistinct | internal/repository/act_repository.go:169-216 | when the trips table has unique ids, the landfill listing names each trip at most once |
| ActRepository.SumActs | internal/repository/act_repository.go:218-226 | a contract without acts has been billed 0 |
| ActRepository.AddClaims | internal/repository/act_repository.go:303-310 | the claims gain exactly the listed trips, each pointing at the new act; every other claim is unchanged |
| ActRepository.CreateAct | internal/repository/act_repository.go:228-318 | the insert commits if and only if the act id, the act number and every trip are free (and no trip is listed twice); otherwise nothing changes, and a reused id or number is reported by its constraint; a commit appends the act with the assigned id and time and claims exactly its trips |
| ActRepository.CreateActAddsToSum | internal/repository/act_repository.go:218-226 | a committed insert raises the billed sum of the act's contract by the act's amount without VAT and leaves every other contract's sum as it was |
| ActRepository.AppendKeepsKeys | internal/db/migrations.go:31-38 | appending an act under an unused id and number, with new claims pointing only at it, keeps ids and numbers unique and every claim pointing at a stored act |
| ActRepository.CreateActKeepsValid | internal/repository/act_repository.go:228-318 | `CreateAct` keeps the ledger invariant (unique trip ids, act ids and act numbers; every claim points at a stored act) |
| ActRepository.FindAct | internal/repository/act_repository.go:337-374 | the found index holds the first act with that id; nothing is found if and only if no act has it |
| ActRepository.GetActByID | internal/repository/act_repository.go:337-374 | the nil id and an unknown id give `RecordNotFound`; otherwise the stored act with that id |
| ActRepository.UpdateActStatus | internal/repository/act_repository.go:377-396 | the act with that id gets exactly the five new status columns; no other column, act or table changes |
| ActRepository.StatusChangeKeepsKeys | internal/repository/act_repository.go:377-396 | changing only status columns keeps the ledger invariant |
| ActRepository.UpdateActStatusKeepsValid | internal/repository/act_repository.go:377-396 | a status update keeps the invariant, keeps every act's other columns and leaves every contract's billed sum unchanged |
| ActRepository.SameIdsSameActIds | internal/repository/act_repository.go:377-396 | status changes keep the set of act ids |
| ActRepository.AmountsUnchanged | internal/repository/act_repository.go:218-226 | status changes never change what a contract has been billed |
| ActRepository.ListActsForLandfill | internal/repository/act_repository.go:399-468 | an act is listed if and only if it belongs to the landfill and, when a status is given, has that status |
| ActRepository.FilterActsAppend | internal/repository/act_repository.go:399-468 | filtering a concatenation of act lists is filtering each part and concatenating, so the model's listing keeps the order in which the acts are stored |
| ActService.NewSettings | internal/service/act_service.go:45-59 | the configured statuses are upper-cased one by one, in order; the other settings are copied |
| ActService.NewSettingsKeepsUpperCase | internal/service/act_service.go:46-49 | upper-case statuses pass through unchanged |
| ActService.RoundHalfAway | internal/service/act_service.go:323 | `math.Round` is within half a unit of its argument, halves going away from zero |
| ActService.Round | internal/service/act_service.go:321-324 | scaled back up, the rounded value is the whole number nearest the scaled value; rounding keeps non-negative values non-negative |
| ActService.RoundPositive | internal/service/act_service.go:321-324 | a value rounds to something positive exactly when it reaches half a unit of the last place |
| ActService.VolumeRoundsPositive | internal/service/act_service.go:129-132 | a total volume survives the "no trips" check exactly when it is at least 0.0005 m3 |
| ActService.ContractTag | internal/service/act_service.go:314-317 | the tag is the upper-cased first eight characters of the contract id (all of it when shorter) |
| ActService.BuildActNumber | internal/service/act_service.go:313-319 | the number is the prefix, a dash, the tag, a dash and the date stamp, each recoverable at its position |
| ActService.ActNumberIgnoresIdTail | internal/service/act_service.go:313-319 | two contracts whose ids agree, up to case, in their first eight characters get the same number on the same day |
| ActService.ActNumberDeterminesTagAndDay | internal/service/act_service.go:313-319 | with a fixed prefix, equal act numbers mean equal tags and equal date stamps |
| ActService.MapUnsafeRunes | internal/service/act_service.go:335-349 | every rune outside letters, digits, `-` and `_` becomes `-`; a name made of kept runes is unchanged |
| ActService.SanitizeFileName | internal/service/act_service.go:334-351 | the result contains only letters, digits, `-` and `_`, neither starts nor ends with `-`, is no longer than the input, and equals the input when the input already has that form |
| ActService.SanitizeFileNameIsSlice | internal/service/act_service.go:334-351 | the result is the rune-by-rune replacement of one contiguous run of the input, and every rune cut off before or after that run is one that becomes `-` |
| ActService.SanitizeFileNameIdempotent | internal/service/act_service.go:334-351 | sanitizing twice is sanitizing once |
| ActService.FileName | internal/service/act_service.go:198 | the file name is `act-`, the sanitized act number, and `.pdf` |
| ActService.CheckRequest | internal/service/act_service.go:62-73 | drivers and unknown roles are refused with permission denied; the checks pass if and only if the role may generate, both dates are set and the start is not after the end; any other failure is invalid input |
| ActService.CheckContract | internal/service/act_service.go:86-97 | a contractor working on another contractor's contract is refused with permission denied; the checks pass if and only if the period lies within the contract's days; any other failure is invalid input |
| ActService.SelectTrips | internal/service/act_service.go:99-120 | a landfill-service contract without polygons is invalid input; only landfill-service contracts can fail; any other contract gets exactly the contract listing for the window and the configured statuses, and a landfill-service contract with polygons gets exactly the landfill listing over its polygons |
| ActService.TotalVolume | internal/service/act_service.go:122-127 | non-negative trip volumes give a non-negative total; no trips give 0 |
| ActService.TripIds | internal/service/act_service.go:123-127 | the ids of the trips, in order |
| ActService.SumTrips | internal/service/act_service.go:122-127 | the loop computes the volume total and the trip ids of the whole list |
| ActService.ComputeAmounts | internal/service/act_service.go:134-137 | the VAT-inclusive amount is exactly the sum of the other two (the final rounding is exact); non-negative inputs give non-negative amounts |
| ActService.RoundWholeSum | internal/service/act_service.go:137 | two values already rounded to cents add up to a value that rounding leaves alone |
| ActService.InitialStatus | internal/service/act_service.go:156-159 | an act waits for approval if and only if its contract is a landfill-service contract; otherwise it is generated |
| ActService.DraftAct | internal/service/act_service.go:148-178 | the drafted act carries the contract, its landfill, the contractor (none for the nil id), the truncated period, today's date, the act number, the initial status and the creator; its volume, price and VAT rate are the inputs and its three amounts are those `ComputeAmounts` gives for them; nothing is approved or rejected |
| ActService.CheckedContract | internal/service/act_service.go:62-97 | the request checks come first, then the lookup (the ORM's not-found becomes the service's not found), then the contract checks; a contract that passes may be billed for the period |
| ActService.PlanAct | internal/service/act_service.go:62-132 | failures propagate in order; a rounded total of 0 or less is "no trips"; a plan has a positive volume and only unclaimed trips inside the window |
| ActService.GenerateActPdf | internal/service/act_service.go:61-204 | a failed check leaves the ledger unchanged; after a plan, a reused act id, a reused act number or an already claimed trip is refused by that constraint and changes nothing; otherwise exactly one act claiming exactly the planned trips is appended; a success carries the drafted act with the stored id and time, the configured work description, the file name, the contents from the renderer, the billed-before sum and the budget warning |
| ActService.LoadAct | internal/service/act_service.go:212-218 | a nil or unknown id is not found; otherwise the stored act |
| ActService.CheckDecision | internal/service/act_service.go:220-226 | an act of another landfill is refused with permission denied; the decision may go ahead if and only if the caller's landfill owns the act and it is pending |
| ActService.ApproveAct | internal/service/act_service.go:207-238 | only landfill users; not found and foreign acts are refused; it succeeds if and only if the act is owned and pending, and then only that act's status columns change (approved, by the caller, now); any refusal changes nothing |
| ActService.RejectAct | internal/service/act_service.go:241-276 | only landfill users; a blank reason is invalid input before any lookup; it succeeds if and only if the act is owned and pending, and then stores the trimmed reason and clears the approver columns; any refusal changes nothing |
| ActService.GetAct | internal/service/act_service.go:288-311 | an unknown act is not found whoever asks; otherwise the caller sees it if and only if they are its landfill, its contractor, or an akimat or KGU user, and are refused with permission denied otherwise |
| ActService.ListLandfillActs | internal/service/act_service.go:279-285 | only landfill users; they get exactly their own organization's acts, filtered by status when one is given |
| BillingProperties.ExtendsTransitive | internal/repository/act_repository.go:228-396 | the "later ledger keeps the earlier one" relation is transitive |
| BillingProperties.AppendKeepsValid | internal/service/act_service.go:180-183 | appending a fresh act keeps the invariant and extends the ledger |
| BillingProperties.GenerateAddsToBilledTotal | internal/service/act_service.go:139-183 | a generation that stores an act raises its contract's billed sum by the act's amount without VAT, and no other contract's sum |
| BillingProperties.GenerateExtends | internal/service/act_service.go:61-204 | generating an act keeps the invariant and extends the ledger, whether it succeeds or not |
| BillingProperties.ApproveExtends | internal/service/act_service.go:207-238 | approval keeps the invariant and extends the ledger |
| BillingProperties.RejectExtends | internal/service/act_service.go:241-276 | rejection keeps the invariant and extends the ledger |
| BillingProperties.ApplyExtends | internal/service/act_service.go:61-276 | every call keeps the invariant and extends the ledger |
| BillingProperties.RunExtends | internal/service/act_service.go:61-276 | any sequence of calls keeps the invariant and extends the starting ledger |
| BillingProperties.TripClaimIsPermanent | internal/db/migrations.go:38 | once a trip is claimed by an act, it stays claimed by that same act through any later calls, so it is billed at most once |
| BillingProperties.ActFiguresAreFrozen | internal/repository/act_repository.go:386-395 | a stored act's id, number, contract, period, volume and amounts never change afterwards |
| BillingProperties.LoadedActIsUnique | internal/repository/act_repository.go:337-374 | with unique ids, the act found by id is the only act with that id |
| BillingProperties.GenerateKeepsActs | internal/service/act_service.go:180-183 | generation never changes a stored act |
| BillingProperties.ApproveKeepsSettledActs | internal/service/act_service.go:224-226 | approval never changes an act that is not pending |
| BillingProperties.RejectKeepsSettledActs | internal/service/act_service.go:262-264 | rejection never changes an act that is not pending |
| BillingProperties.ApplyKeepsSettledActs | internal/service/act_service.go:61-276 | no call changes an act that is not pending |
| BillingProperties.SettledActsAreFinal | internal/service/act_service.go:224-226 | a generated, approved or rejected act stays exactly as it is through any later calls |
| BillingProperties.ClaimedTripsAreNotListedAgain | internal/repository/act_repository.go:139-141 | once an act commits, none of its trips appears in a contract or landfill trip listing of the resulting ledger |
| BillingProperties.OverlappingCreateFails | internal/db/migrations.go:38 | an insert naming an already claimed trip is refused by the trip index and changes nothing |
| BillingProperties.SameDayRegenerationFails | internal/service/act_service.go:148-149 | after an act for a contract has been generated, generating another one for the same contract on the same day fails and changes nothing; when the second request passes its checks and gets a fresh id, the failure is the act-number constraint |
| ReportModel.OrEmpty | internal/excel/generator.go:257-262 | a missing optional string reads as the empty string; a present one as its value |
| ExcelGenerator.ReportLabels | internal/excel/generator.go:167-176 | landfill mode labels groups "Contractor", contractor mode "Landfill", any other mode "Group"; the two labels always differ |
| ExcelGenerator.ReplaceForbidden | internal/excel/generator.go:212-221 | each of `[ ] : * ? / \` becomes `-` and every other character stays, position by position |
| ExcelGenerator.SanitizeSheetName | internal/excel/generator.go:206-227 | the result is a non-empty, trimmed name without forbidden characters; blank input gives "Sheet"; a name that is already safe is kept |
| ExcelGenerator.ReplacedIsTrimmed | internal/excel/generator.go:221-225 | replacing forbidden characters in a trimmed non-empty value keeps it trimmed, so the second blank check never fires |
| ExcelGenerator.SanitizeSheetNameIdempotent | internal/excel/generator.go:206-227 | sanitizing twice is sanitizing once |
| ExcelGenerator.BaseText | internal/excel/generator.go:179-183 | the base is `<group label> - <trimmed name>`, or `<group label> - <id>` for a blank name |
| ExcelGenerator.SheetBase | internal/excel/generator.go:178-188 | the base has 1 to 31 characters and no forbidden character, and is the first 31 characters of the sanitized text |
| ExcelGenerator.Candidate | internal/excel/generator.go:196-201 | a numbered candidate fits in 31 characters, and has no forbidden character when its base has none |
| ExcelGenerator.CandidateShape | internal/excel/generator.go:196-201 | a candidate is a prefix of the base followed by `-<counter>` |
| ExcelGenerator.CandidateInjective | internal/excel/generator.go:196-201 | different counters give different candidates |
| ExcelGenerator.BuildSheetName | internal/excel/generator.go:178-204 | the name is not in use, has 1 to 31 characters, has no forbidden character, and is the first free name in the order base, base-2, base-3, … |
| ExcelGenerator.FirstFreeName | internal/excel/generator.go:190-203 | the search loop ends with the first attempt not in use; the counter stays below the number of used names plus two |
| ExcelGenerator.TryNextCandidate | internal/excel/generator.go:192-202 | each used candidate is new to the tried set, so the counter cannot run past the number of used names |
| ExcelGenerator.AddFreeName | internal/excel/generator.go:31-32 | adding a fresh, valid name keeps the sheet names distinct and valid |
| ExcelGenerator.NameGroupSheet | internal/excel/generator.go:31 | the sheet name chosen for a group is free, valid and within 31 characters |
| ExcelGenerator.AssignSheetNames | internal/excel/generator.go:29-33 | every group gets a sheet name; no name is "Summary"; every name has 1 to 31 characters; all names are distinct |
| ExcelGenerator.TripVolume | internal/excel/generator.go:296-307 | a trip's volume is its total if present, else its entry volume, else its exit volume, and is absent only when all three are missing |
| ExcelGenerator.SumGroupVolume | internal/excel/generator.go:278-286 | the loop adds the present trip volumes of the group |
| ExcelGenerator.SumReportVolume | internal/excel/generator.go:288-294 | the loop adds the group volumes of the report |
| ExcelGenerator.GroupVolumeAppend | internal/excel/generator.go:278-286 | the volume of two trip lists together is the sum of their volumes |
| ExcelGenerator.ReportVolumeOfAllTrips | internal/excel/generator.go:288-294 | the report volume is the volume of all its trips taken as one list |
| ExcelGenerator.GroupVolumeNonnegative | internal/excel/generator.go:278-286 | non-negative trip volumes give a non-negative group volume |
| ExcelGenerator.FormatUuid | internal/excel/generator.go:250-255 | a missing or nil id prints as empty; any other id prints as its text, and a non-empty result identifies a non-nil id |
| PdfGenerator.TrimToWidth | internal/pdf/generator.go:177-186 | the result has the value's length, capped at `max`; a value that fits is kept; a longer one is cut to `max` runes, ending in "..." when `max` exceeds 3 |
| PdfGenerator.TrimToWidthIdempotent | internal/pdf/generator.go:177-186 | shortening a shortened value changes nothing |
| PdfGenerator.TrimToWidthKeepsPrefix | internal/pdf/generator.go:177-186 | the result is a prefix of the value, possibly followed by "..." |
| PdfGenerator.GroupLabel | internal/pdf/generator.go:128-133 | groups are labelled "Contractor" if and only if the mode is landfill, "Landfill" otherwise |
| PdfGenerator.RelatedLabel | internal/pdf/generator.go:135-140 | the counterparty column is "Contractor" if and only if the mode is landfill |
| PdfGenerator.GroupLabelsAgreeOnKnownModes | internal/pdf/generator.go:128-133 | the pdf and the spreadsheet label groups alike if and only if the mode is one of the two known modes |
| PdfGenerator.RelatedName | internal/pdf/generator.go:142-147 | a landfill report shows the contractor's name, any other the polygon's; a missing name is empty |
| PdfGenerator.FloatOrZero | internal/pdf/generator.go:170-175 | a missing volume reads as 0 |
| PdfGenerator.SumGroupVolume | internal/pdf/generator.go:188-199 | the loop adds the present snow volumes; the result does not depend on the mode |
| PdfGenerator.SumReportVolume | internal/pdf/generator.go:201-207 | the loop adds the group volumes |
| PdfGenerator.GroupTotalsAgree | internal/pdf/generator.go:188-199 | when each trip's snow volume is the volume the spreadsheet computes, the pdf and spreadsheet group totals are equal |
| PdfGenerator.DetailPageGroups | internal/pdf/generator.go:61-64 | a group gets a detail page if and only if it has trips |
| PdfGenerator.DetailPageGroupsAppend | internal/pdf/generator.go:61-64 | detail pages keep the report's order: the pages of a concatenation of groups are the pages of each part, concatenated |
| Handler.ParseReportMode | internal/http/handler.go:163-172 | the trimmed, lower-cased value "contractor" gives contractor mode and "landfill" gives landfill mode; anything else is the bare invalid-input error |
| Handler.ParseReportModeOfModeText | internal/http/handler.go:163-172 | each mode's own text parses back to that mode |
| Handler.TrimSpaceUpper | internal/http/handler.go:164 | trimming and upper-casing commute |
| Handler.ParseReportModeIgnoresCase | internal/http/handler.go:164 | upper-casing the request value does not change the parsed mode |
| Handler.KindsExclusive | internal/http/handler.go:150-156 | an error chain matches at most one sentinel kind |
| Handler.HandleError | internal/http/handler.go:149-161 | 403 if and only if `errors.Is` finds permission denied; 400 if and only if invalid input; 404 if and only if not found; otherwise 500 with the fixed text "internal error"; the other statuses carry the error's own message |
| Handler.WrappingKeepsStatus | internal/http/handler.go:149-161 | wrapping an error with `%w` keeps its status |
| Handler.ServiceErrorReplies | internal/http/handler.go:149-161 | a detailed invalid-input error is a 400 that shows its detail; "no trips" is a 500 |
| Handler.FirstLayoutParse | internal/http/handler.go:184-188 | a layout succeeds if and only if one of the layouts accepts the text, and the result is that of the first one that does |
| Handler.ParseDate | internal/http/handler.go:174-190 | a blank value is rejected; every failure is the bare invalid-input error; a date is read if and only if some layout accepts the trimmed text, and the first such layout decides it |
| Handler.BlankDateTriesNoLayout | internal/http/handler.go:175-178 | a blank date is rejected before any layout is tried |
| Handler.MissingFields | internal/http/handler.go:34-39 | a required-field message is produced if and only if some field is empty |
| Handler.ValidateExport | internal/http/handler.go:41-76 | a missing principal is a 401; with a principal, a body that fails to decode is a 400 carrying the decoder's text; then, each step reached only when the earlier ones pass, the first empty field gives the required-field messages, then a bad mode gives "invalid mode", a bad target id "invalid target_id", a bad start "invalid period_start" and a bad end "invalid period_end", all 400; the request is valid if and only if every step succeeds, and then carries the parsed values and the principal |
| Handler.ExportActs | internal/http/handler.go:41-147 | a validation failure is returned as it is; a file is sent if and only if validation and the service both succeed, with the format's content type, an attachment disposition naming the service's file, and the service's bytes; a service error goes through `HandleError` |
| Handler.InvalidRequestNeverReachesService | internal/http/handler.go:41-76 | when validation fails, the reply is the same whatever the report service would do |

## Left out

- Floating point: money and volumes are exact reals. `round` is modelled as exact half-away-from-zero rounding, so `float64` representation error and `math.Pow` are not modelled.
- Time zones and calendar formatting: instants are nanoseconds since Go's zero time and `dateOnly` truncates to a UTC day. The `20060102` stamp comes in with the clock reading. The dates printed inside the two contract-window error messages are not modelled; the message text stops before them.
- UUIDs are their canonical text, as given; `uuid.Parse` is a parameter of the handler.
- SQL text, the ORM and every database failure other than the three unique constraints are not modelled. The relative order of trips entered at the same instant is unspecified in SQL; the model keeps storage order.
- internal/repository/report_repository.go and the report service behind `GenerateReport` and `GenerateReportPDF` are not part of this model; the handler takes the report service as a parameter. cmd/acts-service/main.go wires the handler to a service that does not declare those methods; that wiring is not modelled.
- Cell layout, styles and fonts of the spreadsheet and the pdf (the excelize and gofpdf calls, `configureUnicodeFont`, `findUnicodeFontPath`), the date and float formatting helpers, and the serialisation of both files are not modelled.
- Reading the environment through viper is replaced by the `EnvValues` record.
- JSON decoding is an input to the handler: a body that fails to decode arrives as an error text. The required-field messages are built in the validator library's format.
- Case mapping is ASCII only; `strings.ToUpper` and `strings.ToLower` on other letters are not modelled.
- ExcelGenerator.SheetBase: Go slices the sheet base by bytes; the model slices by characters, which agrees for ASCII names only.
- ExcelGenerator.Candidate: Go cuts the base to make room for the counter by bytes (internal/excel/generator.go:199); the model cuts by characters, which agrees for ASCII names only.
- ExcelGenerator.AssignSheetNames: states that the names are distinct, valid and never "Summary". It does not restate, per group, that the first free name was taken; `BuildSheetName` states that.
- ExcelGenerator.BuildSheetName: requires fewer than 10^30 − 2 names in use, a bound the source does not have, so that every counter's decimal text is short enough for the length argument.
- PdfGenerator.TrimToWidth: requires `max >= 0`; a negative width makes the source's slice panic, and every call site passes a positive constant.
- Logging in `handleError` and the gin context plumbing are not modelled.
- ActRepository.ListActsForLandfill: the query has no `ORDER BY` (internal/repository/act_repository.go:428-459), so the database promises no order; the model lists acts in storage order, and `FilterActsAppend` is a property of that choice.
- Roles are the alternatives of one datatype, so a principal has exactly one role. The principal's `IsAkimat`, `IsKgu`, `IsContractor`, `IsLandfill` and `IsDriver` checks live in a package that is not part of this model; the model assumes they are mutually exclusive.
- BillingProperties.SettledActsAreFinal: holds for calls that run one at a time; the model treats each service call as atomic. In the source, `ApproveAct` and `RejectAct` read the act's status (internal/service/act_service.go:211-226 and 250-264) and then issue an `UPDATE` keyed only by id, with no status condition (internal/repository/act_repository.go:386-395). Two concurrent decisions can therefore both see a pending act, and the later one overwrites the earlier; this interleaving is not modelled.
- BillingProperties.ApplyKeepsSettledActs: states the same for one call at a time and carries the same limit; a concurrent decision that read the status before a settling update is not modelled.
