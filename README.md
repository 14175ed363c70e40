# KeyWe core in Dafny

KeyWe is a Laravel real-estate marketplace backend. Buyers register by OTP,
store search preferences and browse listings. Builders register with KYC
documents, wait for admin verification, and manage their projects, units and
leads from Orchid admin screens. This project models the logic of that core
and proves properties about it:

- the filter taxonomy and the property tagging done by the seeders;
- the buyer preference store;
- the listing search and city detection;
- the account state machines (OTP registration, login, builder registration, the builder gate, admin approve/reject);
- the ownership-guarded project, unit and lead screens and the builder dashboard.

The database is one class, `Schema.Database`. Each table is a field: a map from
id to row, or a set of `(left, right)` pairs for a link table. Every
auto-increment id comes from a single counter. `Valid()` holds the unique
indexes and foreign keys the code relies on. Each controller action is a
method over that class. The signed-in user, the clock and the request are
parameters. A request is a map from input key to a decoded value. Hashing,
token minting and the IP lookup are parameters too. Every list a screen shows
is a function. It is specified by which rows it contains and by the order it
keeps, and a lemma proves what the screen promises about it.

Files, one per source file of the core (plus shared modules):

| file | models |
|---|---|
| `wrappers.dfy`, `text.dfy`, `ordering.dfy`, `responses.dfy` | Option/Result; PHP string helpers; SQL ordering and pagination; controller outcomes |
| `validation.dfy` | request values and the Laravel validation rules the core uses |
| `schema.dfy` | the tables, their invariants, and the single-row writes |
| `catalog.dfy` | `firstOrCreate` and `upsert`, the two catalogue writers |
| `property_filter_seeder.dfy`, `filter_option_seeder.dfy`, `user_preference_options_seeder.dfy`, `database_seeder.dfy` | the seeders |
| `store_user_preference_request.dfy`, `user_preference_controller.dfy` | the buyer preference store |
| `property_model.dfy`, `property_service.dfy`, `property_controller.dfy`, `location_service.dfy` | the unit model's relations, listing search and city detection |
| `register_request.dfy`, `auth_controller.dfy`, `user_model.dfy` | OTP registration, login, logout, `me` |
| `builder_auth_controller.dfy`, `ensure_builder_verified.dfy`, `admin_builder_verification.dfy`, `admin_project_verification.dfy` | builder onboarding and admin review |
| `project_model.dfy`, `builder_project_list.dfy`, `builder_project_edit.dfy`, `unit_form.dfy`, `builder_property_list.dfy`, `builder_property_edit.dfy`, `builder_lead_list.dfy`, `builder_dashboard.dfy` | the builder screens |

## Model

| member | source | states |
|---|---|---|
| Text.TrimShape | database/seeders/PropertyFilterSeeder.php:45-47 | PHP `trim` leaves a piece of the original string with no blank at either end |
| Text.TrimIdempotent | app/Services/LocationService.php:27 | trimming twice is trimming once |
| Text.ContainsIff | app/Services/PropertyService.php:25-28 | the substring test behind `LIKE '%term%'` holds exactly when the term occurs at some index |
| Catalog.FindFilter | database/seeders/FilterOptionSeeder.php:97 | `where('slug')->first()` returns a filter with that slug, and returns nothing only when no filter has it |
| Catalog.FindOption | database/seeders/PropertyFilterSeeder.php:64-68 | the lookup by (filter_id, value) returns an option with that key, and returns nothing only when there is none |
| Catalog.FirstOrCreateFilter | database/seeders/PropertyFilterSeeder.php:31-34 | afterwards exactly one filter has the slug; an existing one is reused untouched, otherwise one is created with the given name and type |
| Catalog.FirstOrCreateOption | database/seeders/PropertyFilterSeeder.php:64-72 | afterwards an option with the (filter_id, value) key exists; the table gains a row carrying the label only when none existed, and an existing option is never relabelled |
| Catalog.UpsertedFrame | database/seeders/UserPreferenceOptionsSeeder.php:98-100 | an upsert keyed by id adds exactly the listed ids, and rows whose ids are not listed are untouched |
| Catalog.UpsertedRow | database/seeders/UserPreferenceOptionsSeeder.php:25-27 | a listed row has exactly its listed columns afterwards, whatever the row held before |
| Catalog.UpsertedIdempotent | database/seeders/UserPreferenceOptionsSeeder.php:39-41 | upserting the same rows twice leaves the same table as upserting them once |
| Catalog.FindOrCreateKeepsUpsertReplaces | database/seeders/FilterOptionSeeder.php:112-120 | on an existing option, find-or-create with another label keeps the old label, while an upsert of that row replaces it |
| PropertyFilterSeeder.Tag | database/seeders/PropertyFilterSeeder.php:42-50 | a property contributes a value exactly when the column is not NULL and the trimmed value is not PHP-empty; a contributed value is never "" or "0" and has no outer blanks |
| PropertyFilterSeeder.OrdinalNatural | database/seeders/PropertyFilterSeeder.php:86-90 | for n >= 0 the ordinal helper gives n with its English suffix: "th" for 11-13 mod 100, otherwise st/nd/rd/th by the last digit |
| PropertyFilterSeeder.OrdinalNegative | database/seeders/PropertyFilterSeeder.php:86-90 | for n < 0 the helper's index into the suffix table is negative, so it fails, exactly when the last digit is non-zero; otherwise it says "th" |
| PropertyFilterSeeder.RoundHundredths | database/seeders/PropertyFilterSeeder.php:97-99 | `round($p / $unit, 2)` is the nearest hundredth of the unit, with a half rounding up |
| PropertyFilterSeeder.Decimal | database/seeders/PropertyFilterSeeder.php:97-99 | a rounded amount prints with its whole part first and a decimal point only when there is a fraction |
| PropertyFilterSeeder.LabelFails | database/seeders/PropertyFilterSeeder.php:53-61 | a contributed value has no label exactly when it is a negative floor number with a non-zero last digit |
| PropertyFilterSeeder.CroreLabel | database/seeders/PropertyFilterSeeder.php:96-97 | 12,500,000 is labelled "₹ 1.25 Cr" |
| PropertyFilterSeeder.LakhLabel | database/seeders/PropertyFilterSeeder.php:98-99 | 750,000 is labelled "₹ 7.5 L" |
| PropertyFilterSeeder.LakhLabelBelowCrore | database/seeders/PropertyFilterSeeder.php:98-99 | 9,999,999 rounds up to "₹ 100 L", not to a crore label |
| PropertyFilterSeeder.RupeeLabel | database/seeders/PropertyFilterSeeder.php:101 | below a lakh the price is a grouped rupee amount: 45,000 is "₹ 45,000" |
| PropertyFilterSeeder.TagOneAsWritten | database/seeders/PropertyFilterSeeder.php:63-76 | as written, an entry with a label has its option found or created and then the link call raises; the walk goes on only past a property without an entry, and no link is added |
| PropertyFilterSeeder.TagOne | database/seeders/PropertyFilterSeeder.php:63-76 | one property: the option (filter, value) is found or created with the label and the link is added; links only grow; nothing is created when the property is already linked; nothing changes when the value has no label |
| PropertyFilterSeeder.TagColumn | database/seeders/PropertyFilterSeeder.php:39-77 | the walk over the properties finishes exactly when every value of the column has a label; it then leaves every contributing property linked to its value's option; everything it creates comes from the column; a tagged column is left as it is |
| PropertyFilterSeeder.LabelledIff | database/seeders/PropertyFilterSeeder.php:59-60 | every column can be labelled exactly when no property has a negative floor number with a non-zero last digit |
| PropertyFilterSeeder.FullyTaggedMono | database/seeders/PropertyFilterSeeder.php:76 | linking is additive: adding filters, options and links never undoes a complete tagging |
| PropertyFilterSeeder.SeedColumn | database/seeders/PropertyFilterSeeder.php:28-77 | one mapping: its filter is found or created by slug with type 'select', then the column is tagged under it; a new filter carries the display name; a tagged column is left as it is |
| PropertyFilterSeeder.Run | database/seeders/PropertyFilterSeeder.php:13-81 | the run completes exactly when every floor number has an ordinal; it then leaves every mapped column tagged; every new filter is a mapped column's; every new option and link comes from a property's value; rows only grow; a second run changes nothing |
| FilterOptionSeeder.PriceValuesAreBounds | database/seeders/FilterOptionSeeder.php:14-22 | each price value is "low-high" for two successive bounds of the listed price ladder |
| FilterOptionSeeder.PriceRangesContiguous | database/seeders/FilterOptionSeeder.php:15-21 | each price bucket's upper bound is the next bucket's lower bound, starting from 0 |
| FilterOptionSeeder.CarpetRangesContiguous | database/seeders/FilterOptionSeeder.php:26-31 | each carpet-area bucket's upper bound is the next bucket's lower bound, starting from 0 |
| FilterOptionSeeder.SeedOptions | database/seeders/FilterOptionSeeder.php:94-122 | afterwards exactly one filter has the slug; an existing one is unchanged, a new one gets the name and type 'select'; every listed value has an option under it; existing options are unchanged; each new option carries the label of the first entry listing its value; a seeded list changes nothing |
| FilterOptionSeeder.SeedGroups | database/seeders/FilterOptionSeeder.php:14-86 | the lists are seeded in order; afterwards every list is seeded; what was created comes from the lists; seeding them again changes nothing |
| FilterOptionSeeder.Run | database/seeders/FilterOptionSeeder.php:11-89 | afterwards the whole catalogue is seeded; rows only grow; what was created comes from the catalogue; a second run creates nothing |
| FilterOptionSeeder.ExactlyOneOption | database/seeders/FilterOptionSeeder.php:111-121 | once a list is seeded, its filter has exactly one option for each listed value |
| UserPreferenceOptionsSeeder.UpsertedHasRows | database/seeders/UserPreferenceOptionsSeeder.php:25-27 | with distinct ids, every listed row is present with exactly its listed columns after the upsert loop |
| UserPreferenceOptionsSeeder.UpsertedNoop | database/seeders/UserPreferenceOptionsSeeder.php:39-41 | a table that already holds the listed rows is left as it is |
| UserPreferenceOptionsSeeder.UpsertEach | database/seeders/UserPreferenceOptionsSeeder.php:25-27 | one upsert loop writes the rows in order (the table becomes the upserted table) and moves the counter past every listed id |
| UserPreferenceOptionsSeeder.SeedBhkTypes | database/seeders/UserPreferenceOptionsSeeder.php:18-27 | the BHK table becomes the upsert of the four listed rows |
| UserPreferenceOptionsSeeder.SeedTimelines | database/seeders/UserPreferenceOptionsSeeder.php:32-41 | the move-in timeline table becomes the upsert of the four listed rows |
| UserPreferenceOptionsSeeder.SeedNearbyLocations | database/seeders/UserPreferenceOptionsSeeder.php:46-56 | the nearby-location table becomes the upsert of the five listed rows |
| UserPreferenceOptionsSeeder.SeedBudgets | database/seeders/UserPreferenceOptionsSeeder.php:61-70 | the budget table becomes the upsert of the four listed rows |
| UserPreferenceOptionsSeeder.SeedLocalities | database/seeders/UserPreferenceOptionsSeeder.php:75-85 | the locality table becomes the upsert of the five listed rows |
| UserPreferenceOptionsSeeder.SeedPropertyTypes | database/seeders/UserPreferenceOptionsSeeder.php:92-100 | the property-type table becomes the upsert of the three listed rows |
| UserPreferenceOptionsSeeder.Run | database/seeders/UserPreferenceOptionsSeeder.php:13-101 | each of the six master tables becomes the upsert of its list, and no other table changes |
| UserPreferenceOptionsSeeder.BudgetsContiguous | database/seeders/UserPreferenceOptionsSeeder.php:61-66 | the budget ranges start at 0; each maximum is the next minimum; each range is non-empty; sort orders ascend |
| UserPreferenceOptionsSeeder.MastersAfterRun | database/seeders/UserPreferenceOptionsSeeder.php:13-101 | after `run` every listed master row is present with exactly its listed columns, whatever the tables held |
| DatabaseSeeder.Run | database/seeders/DatabaseSeeder.php:20-26 | tagging runs before the catalogue; when tagging completes, the properties stay fully tagged and the catalogue is seeded; the options tagging created are never relabelled by the catalogue; a failed tagging ends the run before the catalogue |
| StoreUserPreferenceRequest.PassesMeans | app/Http/Requests/StoreUserPreferenceRequest.php:16-38 | a passing request holds a budget value naming an existing budget range (an integer or its digits), or a non-empty list whose elements all do, since `exists` admits lists; three non-empty lists whose elements pass `exists`; optional lists that are absent, null, blank or such lists; and a radius that is absent, null, blank or reads as an integer from 1 to 50 (`filter_var` accepts signed digit text and `true`) |
| StoreUserPreferenceRequest.OptionalKeysMayBeOmitted | app/Http/Requests/StoreUserPreferenceRequest.php:30-37 | dropping an optional key, or sending it as null, keeps a passing request passing |
| StoreUserPreferenceRequest.RequiredKeysNeeded | app/Http/Requests/StoreUserPreferenceRequest.php:18-28 | dropping a required key, nulling it or sending an empty list fails the request |
| StoreUserPreferenceRequest.UnknownIdFails | app/Http/Requests/StoreUserPreferenceRequest.php:21-22 | an element of the property type list that fails `exists` fails the request: a scalar naming no existing row or no row at all, or a list holding such an element |
| StoreUserPreferenceRequest.ListBudgetPasses | app/Http/Requests/StoreUserPreferenceRequest.php:18 | a budget sent as a one-element list of an existing key passes the rules, as the bare key does |
| StoreUserPreferenceRequest.RadiusOutOfRangeFails | app/Http/Requests/StoreUserPreferenceRequest.php:37 | a radius below 1 or above 50, sent as a number or as its text, fails the request, and so do a list and `false` |
| StoreUserPreferenceRequest.RadiusReadAsInteger | app/Http/Requests/StoreUserPreferenceRequest.php:37 | a radius sent as decimal text, or as `true`, gets the verdict of the integer it reads as (`true` as 1) |
| StoreUserPreferenceRequest.SameRadiusVerdict | app/Http/Requests/StoreUserPreferenceRequest.php:16-38 | the radius rule is independent of the others: two radius values with the same verdict give the request the same verdict |
| StoreUserPreferenceRequest.IdRulesIgnoreRadius | app/Http/Requests/StoreUserPreferenceRequest.php:16-36 | the budget and id-list rules give the same verdict whatever the radius holds, or when it is absent |
| StoreUserPreferenceRequest.RadiusTextAsNumber | app/Http/Requests/StoreUserPreferenceRequest.php:37 | the radius rule gives an integer's decimal text the verdict it gives the integer |
| StoreUserPreferenceRequest.RadiusFails | app/Http/Requests/StoreUserPreferenceRequest.php:37 | a radius value the radius rule refuses fails the whole request, whatever the other keys hold |
| UserPreferenceController.PassedRequestDecodes | app/Http/Controllers/Api/UserPreferenceController.php:52-74 | a validated request is writable exactly when no optional key holds a blank string and no list stands where an id is written (a list budget, or a list inside an id list); what it writes names existing master rows, the three required sets are non-empty, and the radius is 10 or lies in 1..50 |
| UserPreferenceController.IdListOfExisting | app/Http/Controllers/Api/UserPreferenceController.php:63-65 | a list whose elements pass `exists` is synced as a set of existing ids, non-empty when the list is, exactly when no element is itself a list |
| UserPreferenceController.ListBudgetNotWritten | app/Http/Controllers/Api/UserPreferenceController.php:52-58 | a budget sent as a list of one existing key passes validation but cannot be written, so the transaction never commits and `store` answers 500 |
| UserPreferenceController.PreferenceOf | app/Http/Controllers/Api/UserPreferenceController.php:90-99 | the user's preference row is found when one exists; none is found only when the user has none |
| UserPreferenceController.AppliedKeepsOnePerUser | app/Http/Controllers/Api/UserPreferenceController.php:52-58 | `updateOrCreate` keyed by user writes the user's own row or a fresh one, so there stays at most one row per user |
| UserPreferenceController.AppliedKeepsRefs | app/Http/Controllers/Api/UserPreferenceController.php:52-74 | writing validated values keeps every preference row and link pointing at existing master rows |
| UserPreferenceController.RowOf | app/Http/Controllers/Api/UserPreferenceController.php:52-53 | the row written is the user's existing row, else a fresh id |
| UserPreferenceController.WriteSteps | app/Http/Controllers/Api/UserPreferenceController.php:52-74 | the steps run in source order and all go through exactly when no step faults and every value is writable; the tables then hold the row with the budget and radius, the three required sets replaced by the submitted sets, and each optional set replaced only when its key was sent |
| UserPreferenceController.CommitsSplit | app/Http/Controllers/Api/UserPreferenceController.php:48-75 | the transaction commits exactly when each step that runs goes through, and it then writes the decoded request |
| UserPreferenceController.Transaction | app/Http/Controllers/Api/UserPreferenceController.php:48-75 | all or nothing: on commit the tables are the submission applied to the user's row; on any failed step every table keeps its prior state |
| UserPreferenceController.Store | app/Http/Controllers/Api/UserPreferenceController.php:43-81 | 422 exactly when validation fails, 500 exactly when it passes and the transaction fails (a list budget among the causes), otherwise 200; no 403, since the form request authorises every request; only 200 changes the tables, and then as the transaction describes |
| UserPreferenceController.StoreKeepsRefs | app/Http/Controllers/Api/UserPreferenceController.php:43-75 | a committed store keeps every foreign key of the preference tables |
| UserPreferenceController.View | app/Http/Controllers/Api/UserPreferenceController.php:90-105 | the view is missing exactly when the user has no preference row, and otherwise shows that user's row |
| UserPreferenceController.Show | app/Http/Controllers/Api/UserPreferenceController.php:86-106 | `show` gives the 404 exactly when the user has no preference row |
| UserPreferenceController.StoreThenShow | app/Http/Controllers/Api/UserPreferenceController.php:52-74 | reading back a committed store: the row holds the submitted budget and radius; the required link sets are exactly the submitted sets (replace, not union); an optional set is the submitted one when its key was sent, else the old one |
| UserPreferenceController.BhkOptions | app/Http/Controllers/Api/UserPreferenceController.php:24-25 | every BHK type, by ascending sort_order |
| UserPreferenceController.BudgetOptions | app/Http/Controllers/Api/UserPreferenceController.php:27-28 | every budget range, by ascending sort_order |
| UserPreferenceController.TypeOptions | app/Http/Controllers/Api/UserPreferenceController.php:30-31 | exactly the active property types |
| UserPreferenceController.TimelineOptions | app/Http/Controllers/Api/UserPreferenceController.php:33-34 | every move-in timeline, by ascending sort_order |
| UserPreferenceController.NearbyOptions | app/Http/Controllers/Api/UserPreferenceController.php:36 | every nearby location |
| UserPreferenceController.LocalityOptions | app/Http/Controllers/Api/UserPreferenceController.php:38-39 | every locality, by name |
| UserPreferenceController.BhkAscending | app/Http/Controllers/Api/UserPreferenceController.php:24-25 | read as sort_order values, the BHK list never goes down |
| PropertyService.CriterionOf | app/Services/PropertyService.php:22-34 | precedence: with a `search` key the filter is the term (or the query raises), otherwise a truthy city, otherwise nothing |
| PropertyService.Matching | app/Services/PropertyService.php:17-39 | exactly the units that satisfy the criterion, each once, newest first |
| PropertyService.ListProperties | app/Services/PropertyService.php:15-40 | the listing fails only when the search value cannot be interpolated; otherwise a page holds at most ten existing units |
| PropertyService.SearchResultsContainTerm | app/Services/PropertyService.php:23-29 | with a `search` key every listed unit has the term in its title or its location |
| PropertyService.SearchIgnoresCity | app/Services/PropertyService.php:23-34 | with a `search` key the detected city plays no part, even for an empty term |
| PropertyService.EmptySearchMatchesAll | app/Services/PropertyService.php:24-27 | an empty or null search term matches every unit |
| PropertyService.CityFilters | app/Services/PropertyService.php:32-34 | without a `search` key a truthy city keeps exactly the units whose location contains it |
| PropertyService.NoCriterionKeepsAll | app/Services/PropertyService.php:17-39 | with neither a search key nor a truthy city nothing is filtered out |
| PropertyService.PagesNewestFirst | app/Services/PropertyService.php:39 | on every page a unit listed earlier is no older than one listed later |
| PropertyService.GetPropertyDetails | app/Services/PropertyService.php:45-49 | the unit is found exactly when the id is a key, and is that row |
| PropertyModel.AsWrittenRelations | app/Models/Property.php:9-28 | as declared, the eager load of the three relations succeeds only when no row was fetched and neither `attachment()` nor `filterOptions()` resolves; with the intended relations everything resolves |
| PropertyService.ListPropertiesAsWritten | app/Services/PropertyService.php:15-40 | as written, the listing succeeds exactly when the corrected one does with an empty page, and then agrees with it |
| PropertyService.GetPropertyDetailsAsWritten | app/Services/PropertyService.php:45-49 | as written, the detail lookup raises for every id |
| PropertyController.Index | app/Http/Controllers/Api/PropertyController.php:25-54 | `index` answers 200 or 500, and 500 exactly when the search raises; a 500 carries no data |
| PropertyController.KeysSkipDetection | app/Http/Controllers/Api/PropertyController.php:31 | with a `search` or `location` key the lookup is never consulted and no city is echoed |
| PropertyController.DetectedCityUsedAndEchoed | app/Http/Controllers/Api/PropertyController.php:36-43 | otherwise the detected city is both the search's city and `meta.detected_location` |
| PropertyController.LocationKeyAloneListsAll | app/Http/Controllers/Api/PropertyController.php:31-36 | a `location` key alone turns detection off and the listing filters nothing |
| PropertyController.Show | app/Http/Controllers/Api/PropertyController.php:59-75 | `show` answers 404 exactly when the id is not a key, else 200 with that unit |
| PropertyController.IndexAsWritten | app/Http/Controllers/Api/PropertyController.php:25-54 | as written, `index` answers 200 exactly when the corrected one answers 200 with an empty page, and 500 otherwise |
| PropertyController.ShowAsWritten | app/Http/Controllers/Api/PropertyController.php:59-75 | as written, `show` answers 404 with no data for every id |
| PropertyController.AsWrittenHidesUnits | app/Http/Controllers/Api/PropertyController.php:25-75 | for an existing unit the corrected `show` answers 200 with it and the as-written one 404; an unfiltered first page answers 200 corrected and 500 as written |
| LocationService.Normalize | app/Services/LocationService.php:22-33 | the address is the first comma-separated entry, trimmed, with loopback replaced by 103.48.198.141; the result has no comma, no outer blank and is never a loopback address |
| LocationService.HeaderWins | app/Services/LocationService.php:20 | a sent `X-Forwarded-For` header decides the address looked up whatever the connection address; without it the connection address is looked up |
| LocationService.NormalizeIdempotent | app/Services/LocationService.php:22-33 | normalising twice equals normalising once |
| LocationService.FirstEntryWins | app/Services/LocationService.php:23-25 | the proxies appended after the first entry are ignored |
| LocationService.DetectCity | app/Services/LocationService.php:17-39 | the city of the normalised address, and null exactly when the lookup finds no position or no city |
| LocationService.LoopbackLookedUpAsSubstitute | app/Services/LocationService.php:31-33 | a loopback connection without the header is looked up as the substitute address |
| RegisterRequest.PassesMeans | app/Http/Requests/RegisterRequest.php:22-27 | a passing request has a phone of exactly ten decimal digits that no user has; a given e-mail is valid and unused; a given password has at least six characters and equals its confirmation |
| RegisterRequest.OptionalKeysMayBeOmitted | app/Http/Requests/RegisterRequest.php:23-26 | name, e-mail and password may each be left out of a passing request |
| RegisterRequest.TakenPhoneFails | app/Http/Requests/RegisterRequest.php:25 | a phone number some user already has fails the request |
| RegisterRequest.BadPasswordFails | app/Http/Requests/RegisterRequest.php:26 | a password shorter than six characters, or one its confirmation does not repeat, fails the request |
| AuthController.RegisteredRow | app/Http/Controllers/Api/AuthController.php:51-65 | the registered row holds the submitted name, e-mail and phone, the code 123456 expiring ten minutes after now, an unverified phone, a hash exactly when a non-empty password was sent, and no verification status |
| AuthController.Register | app/Http/Controllers/Api/AuthController.php:45-75 | 422 exactly when the form request fails (it authorises every request); 500 exactly when the form passes and the unique indexes refuse the row, which the rules leave possible only for a blank e-mail string already stored under another user, and then nothing is written; otherwise 201 inserts exactly the registered row under a fresh id, so the first registration with a blank e-mail goes through |
| AuthController.UserByPhone | app/Http/Controllers/Api/AuthController.php:88 | `where('phone')->first()` returns the lowest-keyed user with that phone, and nothing only when no user has it |
| AuthController.OtpStatus | app/Http/Controllers/Api/AuthController.php:82-116 | 200 exactly on acceptance; 422 exactly when the request rules fail; 400 otherwise |
| AuthController.VerifiedRow | app/Http/Controllers/Api/AuthController.php:101-106 | verification sets the phone flag and clears the code and expiry; every other column stays, the verification status included |
| AuthController.VerifyOtp | app/Http/Controllers/Api/AuthController.php:80-116 | the status follows the checks in source order; only acceptance changes anything: the row is verified and one 'mobile-login' token is issued |
| AuthController.ExpiryInstantAccepted | app/Http/Controllers/Api/AuthController.php:96-98 | a code is accepted at the very instant it expires |
| AuthController.WrongCodeIsInvalid | app/Http/Controllers/Api/AuthController.php:91-93 | an unknown phone or a wrong code is reported as invalid, never as expired, however late it is |
| AuthController.ReplayFails | app/Http/Controllers/Api/AuthController.php:101-106 | after an accepted check, the same request is invalid at any later time |
| AuthController.FreshPhoneFound | app/Http/Controllers/Api/AuthController.php:88 | a row inserted under a fresh id with an unused phone is the one a code check on that phone finds |
| AuthController.RegisteredCodeAccepted | app/Http/Controllers/Api/AuthController.php:51-60 | a fresh registration is accepted with 123456 at any time up to its expiry |
| AuthController.UserByEmail | app/Http/Controllers/Api/AuthController.php:124 | `where('email')->first()` returns a user with that address, and nothing only when no user has it |
| AuthController.Login | app/Http/Controllers/Api/AuthController.php:118-143 | 401 exactly for an unknown e-mail or a wrong password, and nothing changes; otherwise the user's tokens are deleted and one 'api_token' is issued, so the user holds exactly one token and other users keep theirs |
| AuthController.RevokeAndIssue | app/Http/Controllers/Api/AuthController.php:135-136 | deleting a user's tokens and issuing one leaves them exactly that one, and every other user theirs |
| AuthController.Logout | app/Http/Controllers/Api/AuthController.php:36-43 | the current token is deleted and every other token is kept unchanged |
| AuthController.FirstRole | app/Http/Controllers/Api/AuthController.php:30 | the first role is a role linked to the user; there is none only when the user has no role |
| AuthController.Me | app/Http/Controllers/Api/AuthController.php:18-34 | `me` reports the user's id and verification status, and the slug of a role the user holds, or 'user' when they hold none |
| UserModel.Blank | app/Models/User.php:20-29 | a new user starts with an unverified phone and a null verification status |
| UserModel.FillKeepsVerificationStatus | app/Models/User.php:20-29 | `verification_status` is not fillable, so mass assignment never changes it, whatever the array says |
| UserModel.FillIsForceFillWithoutStatus | app/Models/User.php:20-29 | mass assignment is direct assignment of the array without its `verification_status` key |
| UserModel.ForceFillSetsStatus | app/Models/User.php:20-29 | direct assignment of `verification_status` does take effect |
| BuilderAuthController.Uploads | app/Http/Controllers/BuilderAuthController.php:26-27 | a passing form carries at least one file, each a pdf, jpg or png of at most 5120 KB |
| BuilderAuthController.NewBuilderRow | app/Http/Controllers/BuilderAuthController.php:31-41 | the new account has the submitted name and e-mail, the password's hash and exactly the three builder permissions; the 'pending' status is dropped by mass assignment, so the status is null |
| BuilderAuthController.BuilderRole | app/Http/Controllers/BuilderAuthController.php:44 | the role found has the slug 'builder'; none is found only when no role has it |
| BuilderAuthController.NewAccountRoles | app/Http/Controllers/BuilderAuthController.php:44-47 | a fresh account holds a role exactly when it is the role with slug 'builder' that exists, and every other account keeps exactly its role links |
| BuilderAuthController.StoreUploads | app/Http/Controllers/BuilderAuthController.php:50-61 | one new attachment per uploaded file, in order, under consecutive fresh ids |
| BuilderAuthController.CreateAccount | app/Http/Controllers/BuilderAuthController.php:31-47 | the account is inserted under the next id, with the builder role when it exists |
| BuilderAuthController.Admit | app/Http/Controllers/BuilderAuthController.php:31-65 | the account under the next id, its builder role when one exists, and one fresh attachment per file, linked to the account and to nothing older |
| BuilderAuthController.Register | app/Http/Controllers/BuilderAuthController.php:18-68 | a failed form (name ≤ 255, unique valid e-mail, confirmed password of ≥ 8 characters, ≥ 1 KYC file) changes nothing; a passing one admits the account and redirects to the thank-you page |
| BuilderAuthController.DocumentsAreTheUploads | app/Http/Controllers/BuilderAuthController.php:63-64 | the account's attachment set is exactly the uploads of this request: as many as were uploaded, and none older |
| EnsureBuilderVerified.Session.constructor | app/Http/Middleware/EnsureBuilderVerified.php:13 | the session starts with the given signed-in user, or none for a guest |
| EnsureBuilderVerified.Handle | app/Http/Middleware/EnsureBuilderVerified.php:11-35 | the verdict is the gate's decision on the signed-in user; an expelled user is signed out; a passing request leaves the session alone |
| EnsureBuilderVerified.ExpelExactly | app/Http/Middleware/EnsureBuilderVerified.php:16-34 | the request is stopped exactly when a signed-in user holds the 'builder' role and their status is anything but 'verified' |
| EnsureBuilderVerified.GuestPasses | app/Http/Middleware/EnsureBuilderVerified.php:16-18 | a guest always passes |
| EnsureBuilderVerified.NonBuilderPasses | app/Http/Middleware/EnsureBuilderVerified.php:21-34 | a user without the 'builder' role passes whatever their status |
| EnsureBuilderVerified.UnverifiedBuilderExpelled | app/Http/Middleware/EnsureBuilderVerified.php:24-30 | a builder whose status is null, 'pending', 'rejected' or 'Verified' is stopped |
| EnsureBuilderVerified.VerifiedBuilderPasses | app/Http/Middleware/EnsureBuilderVerified.php:24-34 | a builder whose status is 'verified' passes |
| EnsureBuilderVerified.RegisteredBuilderHeldBack | app/Http/Middleware/EnsureBuilderVerified.php:21-30 | a freshly registered builder is stopped while the 'builder' role exists, because registration leaves the status null |
| EnsureBuilderVerified.RoleLessBuilderPasses | app/Http/Middleware/EnsureBuilderVerified.php:21-34 | without a 'builder' role row, a freshly registered builder holds no role and passes unverified |
| AdminBuilderVerification.RejectTarget | app/Orchid/Screens/AdminBuilderVerificationScreen.php:173 | reject reads `id` only: without it the target is null |
| AdminBuilderVerification.WithStatusChangesOnlyStatus | app/Orchid/Screens/AdminBuilderVerificationScreen.php:166-167 | the direct assignment changes the target account's status and no other column and no other account |
| AdminBuilderVerification.LastActionWins | app/Orchid/Screens/AdminBuilderVerificationScreen.php:162-177 | repeating an action changes nothing further; of two actions on one account the later one wins |
| AdminBuilderVerification.SetStatus | app/Orchid/Screens/AdminBuilderVerificationScreen.php:165-167 | 404 and no change when the target names no account, otherwise exactly that account's status becomes the given one |
| AdminBuilderVerification.Approve | app/Orchid/Screens/AdminBuilderVerificationScreen.php:162-169 | the account named by `id`, or else by `user.id`, becomes 'verified' whatever it was; 404 and no change otherwise |
| AdminBuilderVerification.Reject | app/Orchid/Screens/AdminBuilderVerificationScreen.php:171-177 | the account named by `id` becomes 'rejected' whatever it was; 404 and no change otherwise |
| AdminBuilderVerification.RejectIgnoresModalKey | app/Orchid/Screens/AdminBuilderVerificationScreen.php:164-173 | a form carrying the account only as `user.id` lets approve find it while reject finds nothing |
| AdminBuilderVerification.ActionDecidesGate | app/Orchid/Screens/AdminBuilderVerificationScreen.php:162-177 | after approval a builder passes the builder-verification gate; after rejection it is stopped there |
| AdminBuilderVerification.AllBuilders | app/Orchid/Screens/AdminBuilderVerificationScreen.php:30-39 | exactly the accounts holding the 'builder' role, newest first |
| AdminBuilderVerification.QueueListsBuilders | app/Orchid/Screens/AdminBuilderVerificationScreen.php:34-39 | a queue page holds at most ten accounts, each holding the 'builder' role |
| AdminBuilderVerification.QueueNewestFirst | app/Orchid/Screens/AdminBuilderVerificationScreen.php:38-39 | within a page an account listed earlier was created no earlier than one listed later |
| AdminBuilderVerification.StatusLabels | app/Orchid/Screens/AdminBuilderVerificationScreen.php:67-74 | 'verified', 'rejected' and 'pending' have their own labels; every other status, null included, reads 'Not Verified' |
| AdminBuilderVerification.NewBuilderNotVerified | app/Orchid/Screens/AdminBuilderVerificationScreen.php:68-73 | a self-registered builder shows 'Not Verified', because registration does not store its 'pending' |
| AdminProjectVerification.Rank | app/Orchid/Screens/AdminProjectVerificationScreen.php:24 | the `FIELD()` rank of every status lies between 1 and 4 |
| AdminProjectVerification.RowKeyOrder | app/Orchid/Screens/AdminProjectVerificationScreen.php:23-26 | rows order by status rank (Pending, Draft, Verified, Rejected), then newest first |
| AdminProjectVerification.AllProjects | app/Orchid/Screens/AdminProjectVerificationScreen.php:23-26 | every project, in queue order |
| AdminProjectVerification.QueueOrder | app/Orchid/Screens/AdminProjectVerificationScreen.php:23-26 | on a page, an earlier row has a status no later in the order, and under equal status was created no earlier |
| AdminProjectVerification.PendingFirst | app/Orchid/Screens/AdminProjectVerificationScreen.php:24 | a pending project is listed before any project in another status on the same page |
| AdminProjectVerification.BadgeTellsStatus | app/Orchid/Screens/AdminProjectVerificationScreen.php:66-71 | two statuses share a badge exactly when they are equal |
| AdminProjectVerification.ActionsOffered | app/Orchid/Screens/AdminProjectVerificationScreen.php:75-98 | Reject is always offered; Approve exactly when the project is not verified |
| AdminProjectVerification.WithVerificationChangesOnlyStatus | app/Orchid/Screens/AdminProjectVerificationScreen.php:111-112 | the assignment sets the project's status and changes no other column and no other project |
| AdminProjectVerification.LastActionWins | app/Orchid/Screens/AdminProjectVerificationScreen.php:107-128 | of two actions on one project the later one wins |
| AdminProjectVerification.ActionsAddNoPending | app/Orchid/Screens/AdminProjectVerificationScreen.php:107-128 | approving or rejecting never makes a project pending |
| AdminProjectVerification.ActionDecidesVerifiedScope | app/Models/Project.php:58-61 | an approved project is kept by the `verified()` scope; a rejected one is not |
| AdminProjectVerification.SetVerification | app/Orchid/Screens/AdminProjectVerificationScreen.php:109-112 | 404 and no change when `id` names no project, otherwise exactly that project's status becomes the given one |
| AdminProjectVerification.ApproveProject | app/Orchid/Screens/AdminProjectVerificationScreen.php:107-115 | the project named by `id` becomes 'Verified'; 404 and no change otherwise |
| AdminProjectVerification.RejectProject | app/Orchid/Screens/AdminProjectVerificationScreen.php:120-128 | the project named by `id` becomes 'Rejected', even a verified one; 404 and no change otherwise |
| ProjectModel.FillWritesGivenColumns | app/Models/Project.php:16-25 | mass assignment writes each given fillable column and keeps every other one, views and creation time included |
| ProjectModel.Scoped | app/Models/Project.php:48-61 | a scope keeps exactly the rows whose condition holds |
| ProjectModel.OwnerScopesAgree | app/Models/Project.php:48-56 | `byBuilder` and `byCurrentUser` return the same rows in the same order, the signed-in user's |
| ProjectModel.VerifiedScopeKeeps | app/Models/Project.php:58-61 | `verified()` keeps a row exactly when its status is 'Verified' |
| ProjectModel.NoNewPendingTrans | app/Models/Project.php:58-61 | a chain of changes that each add no pending project adds none |
| BuilderProjectList.Data | app/Orchid/Screens/BuilderProjectListScreen.php:142-150 | the validated data never carries an owner, status, verification status or view count |
| BuilderProjectList.NewRowColumns | app/Orchid/Screens/BuilderProjectListScreen.php:142-156 | a created project belongs to the signed-in builder, is 'Upcoming' and 'Draft', and carries the submitted name, location, RERA number and unit count |
| BuilderProjectList.OtherKeysIgnored | app/Orchid/Screens/BuilderProjectListScreen.php:142-154 | keys outside the rules change neither the verdict nor the created row |
| BuilderProjectList.CreateProject | app/Orchid/Screens/BuilderProjectListScreen.php:140-162 | 422 and no change on a failing form; otherwise the row is inserted under the next id, then the links are synced, and a failed sync leaves the project unlinked |
| BuilderProjectList.LinkAttachments | app/Orchid/Screens/BuilderProjectListScreen.php:159 | the sync replaces the project's links by exactly the submitted ones, or fails and changes nothing |
| BuilderProjectList.CreatedAttachments | app/Orchid/Screens/BuilderProjectListScreen.php:159 | the new project is linked to exactly the submitted attachments (none when the key is absent) and every other project keeps its links |
| BuilderProjectList.OwnProjects | app/Orchid/Screens/BuilderProjectListScreen.php:26-28 | exactly the signed-in builder's projects, newest first |
| BuilderProjectList.ListingIsOwn | app/Orchid/Screens/BuilderProjectListScreen.php:26-28 | a page holds at most ten projects, all own, cut from the rows the `byBuilder` scope keeps |
| BuilderProjectList.ListingNewestFirst | app/Orchid/Screens/BuilderProjectListScreen.php:27-28 | within a page a project listed earlier was created no earlier |
| BuilderProjectEdit.Guard | app/Orchid/Screens/BuilderProjectEditScreen.php:27-32 | 404 for a missing project, 403 for another builder's, pass for one's own |
| BuilderProjectEdit.EditedRowColumns | app/Orchid/Screens/BuilderProjectEditScreen.php:127-138 | a save writes the submitted name and location, the RERA number and unit count when sent, and as status the enum member MySQL stores for the submitted text (matched without ASCII case or trailing spaces, else read as a position); it keeps the owner, the verification status, the views and the creation time |
| BuilderProjectEdit.StatusCaseVariantStored | database/migrations/2026_02_04_081604_create_projects_table.php:23 | no two members of the status enum collate equal, and "ongoing" is stored as 'Ongoing' |
| BuilderProjectEdit.StatusIndexStored | database/migrations/2026_02_04_081604_create_projects_table.php:23 | the integer 2 sent as status, which `required` admits, is stored as the second member, 'Completed' |
| BuilderProjectEdit.StatusOtherRefused | database/migrations/2026_02_04_081604_create_projects_table.php:23 | text that collates with no member and is no position, 'Draft' among them, is refused, so the save fails |
| BuilderProjectEdit.Save | app/Orchid/Screens/BuilderProjectEditScreen.php:120-148 | guard first, then validation, then the update and the attachment sync; the save fails with no change when the status column refuses the text or another project holds a RERA number the collation finds equal; nothing changes when any step before the update fails |
| BuilderProjectEdit.Remove | app/Orchid/Screens/BuilderProjectEditScreen.php:153-166 | guard first, with every table unchanged when it fails; then the project's attachments go with every link to them (project, unit and user links alike), the project and its units go, and the facet links of the removed units go; nothing else changes |
| BuilderProjectEdit.RemovedLeavesNoAttachments | app/Orchid/Screens/BuilderProjectEditScreen.php:160-161 | after a remove the project has no links left and none of its attachments survives |
| BuilderProjectEdit.RemovedLeavesNoUnits | app/Orchid/Screens/BuilderProjectEditScreen.php:161 | after a remove no unit of the project remains |
| UnitForm.ProjectOf | app/Orchid/Screens/BuilderPropertyListScreen.php:187 | a passing form names an existing project |
| UnitForm.NewUnitColumns | app/Orchid/Screens/BuilderPropertyListScreen.php:186-197 | a created unit is 'Available', a value of the status enum, in the named project, with the submitted title, configuration, area and price |
| UnitForm.OtherKeysIgnored | app/Orchid/Screens/BuilderPropertyListScreen.php:186-196 | keys outside the rules, a submitted `status` among them, change neither the verdict nor the created unit |
| UnitForm.EditedUnitColumns | app/Orchid/Screens/BuilderPropertyEditScreen.php:107-117 | an edit goes through exactly when the status column stores the submitted text as one of its members (Available, Sold, Reserved); it then writes that member with the submitted project, title, configuration, area and price, and keeps every other column |
| UnitForm.StatusMembersStored | database/migrations/2026_02_04_091103_create_properties_table.php:26 | no two members of the status enum collate equal, and each member written as spelt is stored as itself |
| UnitForm.StatusCaseVariantsStored | database/migrations/2026_02_04_091103_create_properties_table.php:26 | "sold" and "Sold " are stored as 'Sold' |
| UnitForm.StatusIndexStored | database/migrations/2026_02_04_091103_create_properties_table.php:26 | "2", which matches no member, is stored as the second member, 'Sold' |
| UnitForm.StatusOtherRefused | database/migrations/2026_02_04_091103_create_properties_table.php:26 | "Pending", "0" and "4" are refused, so the edit fails |
| UnitForm.Guard | app/Orchid/Screens/BuilderPropertyEditScreen.php:26-31 | 404 for a missing unit, an error for a unit without a project, 403 for a unit in another builder's project, pass for an own one |
| UnitForm.LinkAttachments | app/Orchid/Screens/BuilderPropertyListScreen.php:201 | the sync replaces the unit's links by exactly the submitted ones, or fails and changes nothing |
| UnitForm.RemoveUnit | app/Orchid/Screens/BuilderPropertyListScreen.php:247-248 | the unit's attachments and every link to them (unit, project and user links) go, then the unit and its facet links |
| BuilderPropertyList.OwnUnits | app/Orchid/Screens/BuilderPropertyListScreen.php:27-32 | exactly the units whose project the signed-in builder owns, newest first |
| BuilderPropertyList.ListingIsOwn | app/Orchid/Screens/BuilderPropertyListScreen.php:27-32 | a page holds at most ten units, each in an own project |
| BuilderPropertyList.ListingNewestFirst | app/Orchid/Screens/BuilderPropertyListScreen.php:31-32 | within a page a unit listed earlier was created no earlier |
| BuilderPropertyList.CreateProperty | app/Orchid/Screens/BuilderPropertyListScreen.php:184-204 | 422 and no change on a failing form; otherwise the unit is inserted under the next id and its links are synced, with no transaction around the two writes |
| BuilderPropertyList.CreatedInForeignProject | app/Orchid/Screens/BuilderPropertyListScreen.php:186-197 | a unit created in another builder's project shows in that builder's list and not in the creator's |
| BuilderPropertyList.EditTarget | app/Orchid/Screens/BuilderPropertyListScreen.php:212-222 | a passing edit form names an existing unit |
| BuilderPropertyList.SaveEditedProperty | app/Orchid/Screens/BuilderPropertyListScreen.php:209-235 | validation first, then the owner check with an error toast and no change for a foreign unit; a status the enum column refuses fails with no change; otherwise the update, with the member the column stores, and the sync |
| BuilderPropertyList.EditMovesUnitAway | app/Orchid/Screens/BuilderPropertyListScreen.php:224-229 | an edit may move an own unit into another builder's project, after which the owner check refuses it to its former owner |
| BuilderPropertyList.DeleteGuard | app/Orchid/Screens/BuilderPropertyListScreen.php:239-244 | 404 when `property` names no unit, an error toast for a foreign unit, pass for an own one |
| BuilderPropertyList.DeleteUnit | app/Orchid/Screens/BuilderPropertyListScreen.php:237-251 | after the check, the unit's attachments with every link to them, the unit and its facet links go; when the check fails no table changes |
| BuilderPropertyList.CreatePropertyAsWritten | app/Orchid/Screens/BuilderPropertyListScreen.php:184-204 | as written, 422 and no change on a failing form; otherwise the unit is inserted under the next id and the action then fails, with no attachment linked |
| BuilderPropertyList.DeleteUnitAsWritten | app/Orchid/Screens/BuilderPropertyListScreen.php:237-251 | as written, the check's outcome when it fails; otherwise the action fails and the unit is still there |
| BuilderPropertyEdit.Save | app/Orchid/Screens/BuilderPropertyEditScreen.php:101-124 | guard first, then validation, then the update and the sync; a status the enum column refuses fails; nothing changes when the guard, the form or the status fails |
| BuilderPropertyEdit.Remove | app/Orchid/Screens/BuilderPropertyEditScreen.php:126-137 | guard first, with every table unchanged when it fails; then the unit's attachments with every link to them, the unit and its facet links go, and nothing else |
| BuilderPropertyEdit.RemoveAsWritten | app/Orchid/Screens/BuilderPropertyEditScreen.php:126-137 | as written, the guard's outcome when it fails; otherwise the action fails and the unit is still there |
| BuilderLeadList.FilterOf | app/Orchid/Screens/BuilderLeadListScreen.php:32-42 | the inbox is narrowed exactly when `project_id` is truthy, and then to the row the value binds to the `where` |
| BuilderLeadList.Leaves | app/Orchid/Screens/BuilderLeadListScreen.php:41 | the flattened scalars of a value hold no list, and a scalar flattens to itself |
| BuilderLeadList.FilterKey | app/Orchid/Screens/BuilderLeadListScreen.php:41 | a scalar filter value names the row `KeyOf` reads from it |
| BuilderLeadList.ListFilterUsesFirst | app/Orchid/Screens/BuilderLeadListScreen.php:32-42 | `?project_id[]=5` filters as `?project_id=5`: a list whose first element is a truthy scalar filters by that element, whatever follows |
| BuilderLeadList.FalsyFirstStillFilters | app/Orchid/Screens/BuilderLeadListScreen.php:32-42 | a list starting with "0" is truthy and filters by row 0, while "0" alone is falsy and filters nothing |
| BuilderLeadList.Inbox | app/Orchid/Screens/BuilderLeadListScreen.php:34-45 | exactly the leads on own projects that pass the filter, newest first |
| BuilderLeadList.ListingIsOwn | app/Orchid/Screens/BuilderLeadListScreen.php:34-45 | a page holds at most ten leads, each on an own project and, under a truthy filter, on the project the bound value names (a list's first scalar) |
| BuilderLeadList.ListingNewestFirst | app/Orchid/Screens/BuilderLeadListScreen.php:45 | within a page a lead listed earlier arrived no earlier |
| BuilderLeadList.FilterNarrows | app/Orchid/Screens/BuilderLeadListScreen.php:40-42 | a filtered inbox is exactly the part of the unfiltered one on the named project |
| BuilderLeadList.ForeignFilterShowsNothing | app/Orchid/Screens/BuilderLeadListScreen.php:36-42 | a filter whose bound value (a list's first scalar) names another builder's project, or no row, shows nothing |
| BuilderLeadList.FilterRedirect | app/Orchid/Screens/BuilderLeadListScreen.php:138-145 | the redirect carries at most the `project_id` key |
| BuilderLeadList.IntTextTruthy | app/Orchid/Screens/BuilderLeadListScreen.php:142-144 | an integer's decimal text is truthy exactly when the integer is not zero |
| BuilderLeadList.IntTextKey | app/Orchid/Screens/BuilderLeadListScreen.php:142-144 | an integer's decimal text names the same row as the integer |
| BuilderLeadList.RedirectKeepsFilter | app/Orchid/Screens/BuilderLeadListScreen.php:138-145 | the inbox the redirect lands on filters exactly as the submitted form asked |
| BuilderLeadList.MarkedChangesOnlyStatus | app/Orchid/Screens/BuilderLeadListScreen.php:156-157 | marking sets the status to 'Contacted' from any status, changes nothing else, and a second mark changes nothing |
| BuilderLeadList.MarkAsContacted | app/Orchid/Screens/BuilderLeadListScreen.php:153-160 | 404 and no change when `lead_id` names no lead, otherwise that lead is marked, whoever's it is |
| BuilderLeadList.ForeignLeadMarked | app/Orchid/Screens/BuilderLeadListScreen.php:147-160 | a lead the inbox never shows the builder can still be read and marked by them |
| BuilderLeadList.LeadGuard | app/Orchid/Screens/BuilderLeadListScreen.php:36-38 | 404 for no lead, pass exactly for a lead the inbox shows, 403 otherwise |
| BuilderLeadList.GetOwnLead | app/Orchid/Screens/BuilderLeadListScreen.php:147-151 | with the owner check, only a lead on an own project is returned |
| BuilderLeadList.MarkOwnLeadAsContacted | app/Orchid/Screens/BuilderLeadListScreen.php:153-160 | with the owner check, another builder's lead is refused and no lead outside the inbox changes |
| BuilderDashboard.Counts | app/Orchid/Screens/BuilderDashboardScreen.php:31 | one lead count per listed project, each the number of leads on it |
| BuilderDashboard.LeadsOfAll | app/Orchid/Screens/BuilderDashboardScreen.php:38-40 | exactly the leads on any of the given projects |
| BuilderDashboard.CountsAddUp | app/Orchid/Screens/BuilderDashboardScreen.php:31-40 | over distinct projects the lead counts add up to the number of leads on them |
| BuilderDashboard.TotalProjectsCountsOwn | app/Orchid/Screens/BuilderDashboardScreen.php:30-37 | Total Projects counts the own projects, and the recent table shows five of them or all when fewer |
| BuilderDashboard.RecentAreNewestOwn | app/Orchid/Screens/BuilderDashboardScreen.php:30-34 | the recent projects are own projects and none left out is newer than any shown |
| BuilderDashboard.OwnOrder | app/Orchid/Screens/BuilderDashboardScreen.php:32 | among the own projects one listed earlier was created no earlier |
| BuilderDashboard.TotalLeadsAddsUp | app/Orchid/Screens/BuilderDashboardScreen.php:38-40 | Total Leads is the sum of the lead counts of all own projects |
| BuilderDashboard.RecentAreOwn | app/Orchid/Screens/BuilderDashboardScreen.php:30-34 | the recent projects are distinct own projects |
| BuilderDashboard.RecentCountsBounded | app/Orchid/Screens/BuilderDashboardScreen.php:30-40 | the lead counts of the recent table add up to at most Total Leads |
| BuilderDashboard.PlaceholdersFixed | app/Orchid/Screens/BuilderDashboardScreen.php:46-47 | Pending Leads and Conversion Rate read '0' and '0%' whatever the data |
| BuilderDashboard.StatusColorMuted | app/Orchid/Screens/BuilderDashboardScreen.php:98-103 | only 'approved', 'pending' and 'rejected' get a colour, so every actual project status renders muted |
| Schema.Sync | app/Orchid/Screens/BuilderProjectEditScreen.php:142 | after `sync` the owner is linked to exactly the given ids and every other owner keeps its links |
| Schema.SyncTargets | app/Orchid/Screens/BuilderProjectEditScreen.php:140-142 | read back after a sync, the owner's targets are the synced ids and every other owner's are unchanged |
| Schema.SyncDropsUnselected | app/Orchid/Screens/BuilderProjectEditScreen.php:140-142 | an earlier link that is not resubmitted is removed |
| Schema.UnitsWithout | database/migrations/2026_02_09_070201_add_project_id_to_properties_table.php:14-18 | the units that survive a project's deletion are exactly those not in it, unchanged |
| Schema.DeleteProject | database/migrations/2026_02_09_070201_add_project_id_to_properties_table.php:14-18 | deleting a project removes it, its units by cascade, and the facet links of those units |
| Schema.DeleteAttachments | app/Orchid/Screens/BuilderProjectEditScreen.php:160 | the attachment rows go, and with them every link to them, whichever model owns it |
| Schema.InsertProject | database/migrations/2026_02_04_081604_create_projects_table.php:19 | the row is stored under the next id, provided no stored RERA number is equal to its own under the collation (case and trailing spaces aside) |
| EnumColumn.EnumValue | database/migrations/2026_02_04_091103_create_properties_table.php:26 | a written string is stored as the member the collation finds equal to it, else as the member at the position its digit text names, and refused exactly when neither applies; whatever is stored is a member |
| EnumColumn.MemberStoredAsItself | database/migrations/2026_02_04_091103_create_properties_table.php:26 | with members that do not collate equal, a member written as spelt is stored as itself |
| EnumColumn.StoredValueStable | database/migrations/2026_02_04_091103_create_properties_table.php:26 | writing back a stored member stores it again |
| Collation.TrailingSpacesCollate | database/migrations/2026_02_04_081604_create_projects_table.php:19 | a trailing space does not change what the collation compares |
| Collation.CaseVariantsCollate | database/migrations/2026_02_04_081604_create_projects_table.php:19 | strings equal up to ASCII case compare equal |
| Ordering.Page | app/Orchid/Screens/AdminProjectVerificationScreen.php:26 | a page holds at most ten rows, all from the listing, and a page number below 1 reads as the first page |
| Ordering.Select | app/Orchid/Screens/BuilderProjectListScreen.php:26-28 | a query lists exactly the rows that satisfy its condition, each once, ordered by its key |
| Ordering.LatestPageOrder | app/Orchid/Screens/BuilderProjectListScreen.php:27-28 | on any page of a `latest()` listing an earlier row is no older than a later one |
| Validation.KeyOf | app/Orchid/Screens/BuilderLeadListScreen.php:149 | a value names a row key exactly when it is a non-negative integer or a string of decimal digits |
| Validation.KeyOfRenderedKey | app/Orchid/Screens/AdminProjectVerificationScreen.php:82 | a key rendered into a form, as integer or as text, names the same row when it comes back |
| Validation.IdSet | app/Http/Controllers/Api/UserPreferenceController.php:63-65 | exactly the row keys the list's elements name, each once; `sync` links exactly these when each id is sent as its own decimal text (`PivotSync.CanonicalSyncIsSync`) |
| PivotSync.SyncValues | app/Http/Controllers/Api/UserPreferenceController.php:63-73 | `sync` on the submitted values: a current link is kept exactly when some value spells its id, a named id not yet linked is added, other owners keep their links |
| PivotSync.SpelledIsNamed | app/Http/Controllers/Api/UserPreferenceController.php:63 | a value that spells an id and names a row names that id |
| PivotSync.RenderedKeyCanonical | app/Orchid/Screens/BuilderProjectEditScreen.php:142 | an id rendered into a form, as an integer or its text, spells the id it names |
| PivotSync.SyncValuesWithinSubmitted | app/Http/Controllers/Api/UserPreferenceController.php:63-73 | `sync` links only submitted ids, and loses a submitted id only when it was linked and no value spells it |
| PivotSync.CanonicalSyncIsSync | app/Http/Controllers/Api/UserPreferenceController.php:63-73 | when every value spells the id it names, `sync` on the values equals `Schema.Sync` of `IdSet` |
| PivotSync.FreshOwnerSyncIsSync | app/Orchid/Screens/BuilderProjectListScreen.php:159 | for an owner with no links yet, such as a new project, `sync` on the values equals `Schema.Sync` of `IdSet` |
| PivotSync.LeadingZeroUnlinks | app/Http/Controllers/Api/UserPreferenceController.php:63 | resending a linked id 5 as "05" removes the link, while `IdSet` is {5} |
| PivotSync.BothSpellingsKeep | app/Http/Controllers/Api/UserPreferenceController.php:63 | sending "5" beside "05" keeps the link |
| Validation.IdSetOfExisting | app/Http/Requests/StoreUserPreferenceRequest.php:21-22 | a list whose elements each name an existing row names only keys of the table, and a non-empty one names at least one |
| Validation.ListExistsCases | app/Http/Requests/StoreUserPreferenceRequest.php:18 | a list of existing keys passes `exists`, and a list with an element naming no existing row fails it |
| Validation.DistinctTextsNameDistinctRows | app/Http/Requests/StoreUserPreferenceRequest.php:18 | "1" and "01" each pass `exists`, but together they fail, since `array_unique` counts two values where one row is found; 1 and "1" together pass |
| Validation.IntegerOf | app/Http/Requests/StoreUserPreferenceRequest.php:37 | `integer` accepts an integer, `true` (as 1) and trimmed, optionally signed digit text without a leading zero, and nothing else |
| Validation.NumberOf | app/Orchid/Screens/BuilderProjectListScreen.php:147 | a numeric integer is itself; numeric text stands for a negative number only when it starts with a minus sign |
| Validation.RenderedNumber | app/Orchid/Screens/BuilderPropertyListScreen.php:190-191 | any integer's decimal text passes `integer` and `numeric` and reads back as that integer |
| Validation.RenderedSplit | app/Orchid/Screens/BuilderPropertyListScreen.php:190-191 | an integer's decimal text has no blanks to trim, and splits into its sign and the digits of its magnitude |
| Validation.IntegerIsNumeric | app/Orchid/Screens/BuilderPropertyListScreen.php:190-191 | text that passes `integer` passes `numeric` too, for the same number |
| Validation.SubmittedIds | app/Orchid/Screens/BuilderProjectListScreen.php:159 | an absent attachment key submits no ids; a list submits the ids its elements name, in order |

## Left out

- Screen rendering, layouts, command bars, Toast texts, menus, Blade views and routes are not modelled; an error toast is the outcome `Refused`.
- `BuilderProfileScreen`, `BuilderSubscriptionScreen` and `RoleListScreen` hold no logic and are not part of this model; nor are `RolesSeeder`, `LoginRequest` and `SocialAuthController`.
- Password hashing, Sanctum token minting, the IP geolocation lookup, the clock and file storage are parameters; upload contents, MIME sniffing and file sizes beyond the declared rule are not modelled.
- Floating point: `formatPrice` works on integer hundredths. Its half-up rounding to two decimals and its `number_format` grouping are modelled, but the representation error of the float divisions `$price / 10000000` and `$price / 100000` is not: a price whose quotient lies on a rounding boundary may print one hundredth lower in PHP.
- Collation.CollationKey: folds ASCII letters only and ignores trailing spaces only; the accent folding and the non-ASCII case folding of `utf8mb4_unicode_ci` are not modelled, so "Sóld" is refused here and stored as 'Sold' by MySQL.
- EnumColumn.EnumValue: only plain decimal digit text is read as a position; text with a sign, a decimal point or leading blanks is refused here, where MySQL may convert it to a number first.
- Every string comparison in a query (`where`, `firstOrCreate`, `unique:`, `LIKE`) is exact. MySQL's default `_ci` collation, which folds case and ignores trailing spaces, is not modelled there, nor are the `%`/`_` wildcards inside a search term. The members below inherit this. The RERA unique index and the two `status` enum columns do compare under the collation (`Collation.CollationKey`), with the limits stated on the two lines above.
- PropertyService.Matching: `LIKE` is matched case-exactly, so a search or city in another case finds nothing here, where the collation finds the units.
- PropertyService.CityFilters: keeps only the units whose location contains the city in the same case, where the collation keeps case variants too.
- PropertyService.SearchResultsContainTerm: holds for the case-exact match; under the collation a listed unit holds the term up to case.
- Catalog.FindFilter: matches the slug exactly, where the collation also finds a slug that differs only in case.
- Catalog.FindOption: matches (filter_id, value) exactly, where the collation makes "Villa" and "villa" one option.
- Catalog.FirstOrCreateFilter: creates a second filter for a slug that differs only in case from a stored one, which `firstOrCreate` would find.
- Catalog.FirstOrCreateOption: creates a second option for a value that differs only in case from a stored one, which `firstOrCreate` would find.
- AuthController.UserByEmail: finds no user for a case variant of a stored e-mail address, which the source finds.
- AuthController.Login: answers 401 for a case variant of a stored e-mail address, where the source logs the user in.
- AuthController.Register: lets through an e-mail address that differs only in case from a stored one, which `unique:users,email` refuses.
- RegisterRequest.PassesMeans: `unique:users,email` compares exactly, so a case variant of a stored address passes here and fails in the source.
- BuilderAuthController.Register: `unique:users,email` compares exactly, so a case variant of a stored address is admitted here and refused in the source.
- Column widths, the 32/64-bit range of integer columns and MySQL's implicit string-to-number conversion are not modelled; ids and counts are unbounded.
- Every table draws its ids from one counter (`Schema.Database.nextId`); a real database has one counter per table. Only freshness is relied on.
- The order of rows with equal `created_at` is the id order of the scan; MySQL leaves it unspecified.
- Concurrency: each action runs alone; a transaction is all-or-nothing on one state.
- UserPreferenceController.Transaction: the id counter is not rolled back with the rows, as auto-increment counters are not.
- The OTP clock is an integer number of seconds.
- Lookup failures (`findOrFail`, a null relation) are outcomes (`NotFound`, `Failed`) rather than exceptions; a `findOrFail` given an array of ids is not modelled.
- AuthController.FirstRole: the first role is taken as the linked role with the smallest id, and the contract does not state that minimality; Eloquent leaves the order of the relation to the database.
- Leads on a deleted project are not removed (no cascading key is visible), and links from other models to deleted attachments are dropped as by a cascading key.
- The migrations that drop and rename unit columns are not followed, so a unit carries both the screen columns and the tagging columns.
- `app/Models/Property.php` declares only `project()`. The members below take `attachment()` and `filterOptions()` as declared, which is what their callers evidently intend (see "## Findings"); the as-written failures are modelled beside them by `PropertyModel` and the `…AsWritten` members.
- PropertyFilterSeeder.TagOne: adds the link; as written `$property->filterOptions()` raises after the option is created (`PropertyFilterSeeder.TagOneAsWritten`).
- PropertyFilterSeeder.TagColumn: as written the walk stops at the first property with a value for the column, with that value's option created and no link added.
- PropertyFilterSeeder.SeedColumn: as written the column's filter is created and the tagging then stops at the first property with a value.
- PropertyFilterSeeder.Run: as written the run stops in the first mapped column any property has a value for, before any link exists.
- DatabaseSeeder.Run: as written the tagging seeder stops as above, so `FilterOptionSeeder` never runs once any property has a mapped value.
- PropertyService.ListProperties: as written the eager load raises for every non-empty page (`PropertyService.ListPropertiesAsWritten`).
- PropertyService.GetPropertyDetails: as written the eager load raises for every existing id (`PropertyService.GetPropertyDetailsAsWritten`).
- PropertyController.Index: as written a non-empty page answers 500 (`PropertyController.IndexAsWritten`).
- PropertyController.Show: as written every id answers 404 (`PropertyController.ShowAsWritten`).
- UnitForm.LinkAttachments: as written `$property->attachment()` raises, so no link is ever written.
- UnitForm.RemoveUnit: as written `$property->attachment()` raises before anything is deleted, so the unit survives.
- BuilderPropertyList.CreateProperty: as written the unit is inserted and the action then fails with no link (`BuilderPropertyList.CreatePropertyAsWritten`).
- BuilderPropertyList.SaveEditedProperty: as written the update is written and the action then fails with the links unchanged.
- BuilderPropertyList.DeleteUnit: as written the action fails after the check and the unit survives (`BuilderPropertyList.DeleteUnitAsWritten`).
- BuilderPropertyEdit.Save: as written the update is written and the action then fails with the links unchanged.
- BuilderPropertyEdit.Remove: as written the action fails after the guard and the unit survives (`BuilderPropertyEdit.RemoveAsWritten`).
- Authentication of the Orchid screens is the routes' job: every screen action takes the signed-in user as an id.
- `FIELD()` ranks a value outside its list as 0; the verification status column admits only the four listed values, so that case is not modelled.
- The foreign-key check on a sync is applied to every submitted id, not only to the links it adds.
- BuilderLeadList.RedirectKeepsFilter: does not cover a boolean `project_id`, which no form submits: `true` travels as "1", which then names row 1.
- Logging and `Str::slug` are left out; slugs are constants.
- Validation.Numeric: `is_numeric` also accepts decimals and exponents ("4500000.50", "1e3"); the model accepts only whole numbers (an integer, or trimmed text with an optional sign and digits), because every column these values reach is an integer column and MySQL's rounding of a decimal into it is not modelled. The surrounding blanks it trims are PHP `trim`'s, where `is_numeric` skips form feed and not NUL.
- BuilderProjectList.CreateProject: a decimal or exponent `total_units` answers 422 here, while the source saves the row.
- BuilderProjectEdit.Save: a decimal or exponent `total_units` answers 422 here, while the source saves the row.
- BuilderPropertyList.CreateProperty: a decimal or exponent area or price answers 422 here, while the source saves the row.
- BuilderPropertyList.SaveEditedProperty: a decimal or exponent area or price answers 422 here, while the source saves the row.
- BuilderPropertyEdit.Save: a decimal or exponent area or price answers 422 here, while the source saves the row.
- Validation.Exists: on a list, a nested list makes `array_unique` raise ("Array to string conversion") and answer 500, while the model fails the rule (422).
- UserPreferenceController.PassedRequestDecodes: a list inside an id list is treated as unwritable (500). Laravel's `sync` reads such an element as its index carrying pivot columns; a non-empty one raises on the unknown column, as modelled, but an empty one links the row whose id is its index.
- UserPreferenceController.Store: inherits the nested-list case above, so `["5", []]` answers 500 here while the source links rows 5 and 1 when both exist.
- BuilderPropertyList.CreateProperty: `exists:projects,id` is read on a scalar only (`UnitForm.NamesRow`); a list naming an existing project passes the rule in the source and the insert then raises (500), where the model refuses the form (422).
- BuilderPropertyList.SaveEditedProperty: the same for `property.project_id` and the modal's `id`, read on scalars only; a list there passes in the source and the update raises.
- BuilderPropertyEdit.Save: the same for `property.project_id`.
- The HTTP kernel is not part of this model, so Laravel's default `TrimStrings` and `ConvertEmptyStringsToNull` middleware are taken to be absent: values reach the rules and the controllers as sent. With them, a blank string would arrive as null and surrounding blanks would be gone. The members below depend on that.
- UserPreferenceController.PassedRequestDecodes: a blank optional value is unwritable here (500), where with the middleware it is null, so it would sync to no ids or give the radius 10 (200).
- UserPreferenceController.Store: answers 500 for a blank optional value, where with the middleware the store answers 200.
- AuthController.Register: a blank e-mail string can clash with a stored one (500), where with the middleware it is null, which the unique index does not constrain.
- PropertyService.SearchResultsContainTerm: the term is matched untrimmed, where with the middleware its surrounding blanks are gone, and a blank term is null.
- BuilderProjectList.CreateProject: stores the submitted strings untrimmed, where with the middleware their surrounding blanks are gone.
- UnitForm.NewUnitColumns: stores the submitted title and configuration untrimmed, where with the middleware their surrounding blanks are gone.
- Validation.IdSet: the preference store and the project edit sync the set of ids the values name, which is what `sync` does when each id is sent as its own decimal text, as the forms send it (`PivotSync.CanonicalSyncIsSync`). Laravel's `sync` works on the raw values (`PivotSync.SyncValues`): resending an already linked id with leading zeros ("05" for 5) removes its link (`PivotSync.LeadingZeroUnlinks`), and two spellings of one new id ("7" and "07") insert two link rows, which a set of links cannot show.
- UserPreferenceController.WriteSteps: states the synced sets as `IdSet` of the values, so an already linked id resent with leading zeros stays linked here and is unlinked in the source (see `Validation.IdSet`).
- UserPreferenceController.Store: inherits the leading-zero case of `WriteSteps`.
- UserPreferenceController.StoreThenShow: the required and optional sets read back as `IdSet` of the values only when each id is sent as its own decimal text (see `Validation.IdSet`).
- BuilderProjectEdit.Save: an attachment id already linked and resent with leading zeros stays linked here and is unlinked in the source (see `Validation.IdSet`); on a new project the two agree (`PivotSync.FreshOwnerSyncIsSync`).
- Validation.KeyOf: a boolean names no row, while MySQL reads `true` as 1; text that MySQL converts to a number only in part (" 3", "3abc") names no row either. `exists:` and `IdSet` inherit this.
- Validation.IntegerOf: the range of PHP integers is not modelled, and the trimmed characters are PHP `trim`'s, where `filter_var` does not strip NUL.
- UserPreferenceOptionsSeeder.SeedPropertyTypes: the upsert is keyed by id alone, and the unique index on `property_types.slug` is not modelled. MySQL's upsert updates the row that clashes on any unique key. So when a row under another id already holds a listed slug, that row is updated and the listed id is never written; when the listed id exists too, the statement fails.
- UserPreferenceOptionsSeeder.Run: inherits the slug case above; its promise for the property types holds only when no unlisted id holds a listed slug.
- UserPreferenceOptionsSeeder.MastersAfterRun: "whatever the tables held" holds for the property types only when no unlisted id holds a listed slug.

## Findings

| source | as written | input that shows it | evidently intended | confidence | as-written member | corrected member |
|---|---|---|---|---|---|---|
| app/Orchid/Screens/BuilderLeadListScreen.php:147-160 | `asyncGetLead` and `markAsContacted` look the lead up by `lead_id` alone, with no owner check | a signed-in builder sends the `lead_id` of a lead on another builder's project: the lead is returned and marked 'Contacted' | only leads the inbox shows the builder (leads on their own projects, lines 36-38) can be read or marked | not executed | `BuilderLeadList.ForeignLeadMarked` | `BuilderLeadList.MarkOwnLeadAsContacted` |
| app/Services/PropertyService.php:45-49 | `getPropertyDetails` eager-loads `attachment` and `filterOptions`, which `Property` does not declare (app/Models/Property.php:9-28 has only `project()`) | `GET /api/v1/properties/{id}` for a stored unit: the relation error is caught by `show` and answered 404 | 200 with the unit and its relations | not executed | `PropertyController.AsWrittenHidesUnits` | `PropertyController.Show` |
| app/Services/PropertyService.php:15-40 | `listProperties` eager-loads the same undeclared relations | `GET /api/v1/properties-kre` with a `location` key and one unit stored: the eager load raises and `index` answers 500 | 200 with the page | not executed | `PropertyController.IndexAsWritten` | `PropertyController.Index` |
| app/Orchid/Screens/BuilderPropertyListScreen.php:184-204 | `createProperty` syncs through `$property->attachment()`, which `Property` does not declare | any passing create form: the unit is inserted, then the sync raises | the unit is created and its attachments linked | not executed | `BuilderPropertyList.CreatePropertyAsWritten` | `BuilderPropertyList.CreateProperty` |
| app/Orchid/Screens/BuilderPropertyListScreen.php:237-251 | `deleteProperty` calls `$property->attachment()->delete()` before `$property->delete()` | deleting an own unit: the first call raises and the unit stays | the unit's attachments and the unit are deleted | not executed | `BuilderPropertyList.DeleteUnitAsWritten` | `BuilderPropertyList.DeleteUnit` |
| app/Orchid/Screens/BuilderPropertyEditScreen.php:126-137 | `remove` calls `$property->attachment()->delete()` before `$property->delete()` | removing an own unit from its edit screen: the first call raises and the unit stays | the unit's attachments and the unit are deleted | not executed | `BuilderPropertyEdit.RemoveAsWritten` | `BuilderPropertyEdit.Remove` |
| database/seeders/PropertyFilterSeeder.php:63-76 | the tagging step links through `$property->filterOptions()`, which `Property` does not declare | a stored unit with `bhk` "2 BHK": the option is created, then the link call raises and the seeder stops | the unit is linked to the option and the walk goes on | not executed | `PropertyFilterSeeder.TagOneAsWritten` | `PropertyFilterSeeder.TagOne` |
