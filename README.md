# AMR surveillance network: a verified model of its core

This project models, in Dafny, the logic of a web application for antimicrobial-resistance (AMR)
surveillance. Laboratories upload susceptibility results (one result per pathogen and antibiotic
for a sample), environmental samples are recorded with their pathogen load, and the application:

- keeps a catalogue of pathogens and antibiotics;
- computes resistance percentages per facility, region, pathogen, antibiotic and month;
- classifies them into risk levels;
- looks for upward trends that may signal an outbreak;
- raises alerts for the users concerned.

Its browser scripts keep an offline queue of submissions, decode a push key, preview uploaded
files, validate forms and filter the map.

The modules follow the source files:

| module | models |
|---|---|
| `Common` | `Option`/`Result`, ASCII text helpers, counting, filtering, grouping, stable sorts, exact percentages, Python's `round` |
| `Calendar` | dates and times of Python's `datetime` range, stamps, month arithmetic, `timedelta` by days, `strftime('%Y-%m-%d')` |
| `Models` | the schema of `models.py` as datatypes; the session as the class `Database` (tables as sequences, commit and rollback as snapshot and restore); the alert fan-out |
| `Utils` | `utils.py`: `allowed_file`, `hash_patient_id`, `calculate_resistance_risk`, `format_date` |
| `DataProcessing` | `data_processing.py`: batch ingestion with find-or-create catalogue, critical-resistance and environmental alerts, the resistance map |
| `MlModels` | `ml_models.py`: the outbreak detector, treatment recommendations, the spread forecast |
| `Routes` | `routes.py`: the twelve monthly trend windows, top pathogens, pathogen guidance, outbreak alerts, the two alert flags |
| `Dashboard` | `routes/dashboard.py`: home rate, map data, the month-walking trend loop, effectiveness, distribution, regional comparison |
| `DataRoutes` | `routes/data.py`: region rates, the data-view filters, the upload stubs, the manual-entry form |
| `Treatment` | `routes/treatment.py`: per-antibiotic statistics for a pathogen |
| `Alerts` | `routes/alerts.py`: the listing filters, acknowledge/resolve/dismiss, manual alerts, the latest-alerts feed, counts |
| `Auth` | `routes/auth.py`: `admin_required`, the Firebase login's user resolution and unique-username loop, registration |
| `Admin` | `routes/admin.py`: dashboard counts, adding a facility |
| `OfflineManager` | `static/js/offline-manager.js`: the pending-upload queue and the sync-status indicator |
| `Notifications` | `static/js/notifications.js`: URL-safe base64 key decoding, the new-alert check, icons, badge, `sendNotification` |
| `DataUploader` | `static/js/data-uploader.js`: file-type check, CSV and JSON previews, direct-entry validation, antibiotic field ids |
| `DataUpload` | `static/js/data_upload.js`: the plain upload page, previews and the submit button |
| `Maps` | `static/js/maps.js`: the locations the filter select picks, the markers its change handler leaves (none, as written), and the popup's pathogen breakdown |

Conventions used throughout:

- **Store.** The database is a set of tables held as sequences. Ids are positions plus one
  (`KeyedRows`), and SQL queries are functions over the sequences.
- **Loops.** Where the source runs a loop or changes state, the model is a `method` proved equal to
  a specification function, and the properties are lemmas about that function.
- **Percentages** are exact rationals (`real`). Threshold tests are also stated as
  cross-multiplications on the counts. Python's `round` is modelled on the exact quotient, with
  ties going to the even neighbour.
- **Parameters.** Everything the code gets from outside is a parameter of the model:
  - the clock (`now`) and report ids;
  - the SHA-256 hash, an uninterpreted function;
  - `strptime` for each format, and `float`;
  - the browser's `atob` and `JSON` functions;
  - the delivery outcome of each sync request;
  - the random increase of the spread forecast.

## Behaviour of the code that the model keeps

Some behaviours of the code are easy to mistake for others. The model follows the code in each case:

- **Ingestion result.** `process_lab_data` returns only the number of records processed, with no
  list of skipped records. A record is skipped, and not counted, when a field is missing.
- **Hash and salt.** The patient-id hash is taken over the plain concatenation of the id and the
  salt, so `("ab", "c")` and `("a", "bc")` hash alike (`Utils.HashConcatenationExample`). Nothing
  more is claimed about different salts, since the hash is uninterpreted.
- **Duplicate catalogue entries.** The catalogue is looked up by name before a row is created. No
  unique constraint or retry guards the name.
- **Outbreak groups.** Outbreak groups are keyed by state, city, pathogen id and pathogen name, and are
  visited in ascending key order, as pandas' `groupby` sorts them (`MlModels.PlaceKeysAre`).
- **Severity at 80 %.** A last row at exactly 80 % gets severity 4, not 5, because the test is
  `> 80` (`MlModels.SignalAtEighty`).
- **Upload submit button.** On the plain upload page, choosing any supported file enables the
  submit button, whether or not a facility is selected. A facility change then re-applies the
  file-and-facility rule, even after an unsupported file (`DataUpload.ChooseFileSubmit`,
  `DataUpload.FacilityReenablesUnsupported`).

## Model

| member | source | states |
|---|---|---|
| `Common.LastIndexOf` | utils.py:17 | `rsplit('.', 1)` splits at the last '.': there is none exactly when the text has no '.', and otherwise no '.' follows it |
| `Common.Before` | routes/auth.py:67 | `email.split('@')[0]` begins the email, holds no '@', stops at the first '@', and is the whole email when there is none |
| `Common.First` | routes/auth.py:58-60 | `.filter(...).first()` gives a matching row of the table, and nothing exactly when no row matches |
| `Common.FirstIndex` | routes/auth.py:60-63 | the position of the first matching row: it matches and no earlier row does; there is none exactly when no row matches |
| `Common.DistinctKeys` | routes/alerts.py:196-204 | the groups of a GROUP BY: each key once, and exactly the keys some row has |
| `Common.SortDesc` | data_processing.py:341 | `sort(key=..., reverse=True)` gives a permutation of the list, sorted by descending key |
| `Common.TopRanked` | routes/dashboard.py:28 | `order_by(...desc()).limit(k)`: the result is sorted descending, and no row left out ranks above one kept |
| `Common.Percent` | utils.py:80-85 | a percentage with a zero total is 0; otherwise it is not negative, and at most 100 when the count is at most the total |
| `Common.PercentAtLeast` | data_processing.py:319-327 | a percentage threshold test holds exactly when the cross-multiplied counts pass it, strict and non-strict |
| `Common.PercentExtremes` | routes/dashboard.py:123 | a percentage is 0 exactly when nothing is counted or the total is 0, and 100 exactly when everything is counted |
| `Common.RoundHalfEvenNearest` | routes/treatment.py:50 | Python's `round` on an exact quotient is within half a unit of it, and a tie goes to the even neighbour |
| `Common.RoundedPercentBounded` | routes/treatment.py:50 | the rounded percentage of `resistant` out of `total` is at most 100 |
| `Calendar.Make` | routes/dashboard.py:105 | `datetime(y, m, d)` gives a value exactly when the year is in Python's range and the day exists in that month, and then midnight of that day |
| `Calendar.SubDays` | routes/alerts.py:169 | subtracting `n` days keeps the time of day and gives an earlier moment when `n` is positive |
| `Calendar.YearBefore` | routes/dashboard.py:96-97 | a year back lies before now, at least eleven months back, and twelve months back from the first of a month |
| `Calendar.IsoDateShape` | data_processing.py:253 | `strftime('%Y-%m-%d')` gives ten characters with dashes at positions 4 and 7 |
| `Models.RoleFromValue` | models.py:8-14 | the role whose stored value is the given text, and `None` exactly when no role has that value (where `UserRole(value)` raises) |
| `Models.UserById` | data_processing.py:25 | `User.query.get(id)`: a returned row is a user with that id; in a keyed store an id in range finds the row at that position |
| `Models.FacilityById` | data_processing.py:20 | `Facility.query.get(id)`, with the same guarantees |
| `Models.PathogenById` | data_processing.py:237 | `Pathogen.query.get(id)`, with the same guarantees |
| `Models.AntibioticById` | data_processing.py:133 | `Antibiotic.query.get(id)`, with the same guarantees |
| `Models.ReportById` | data_processing.py:300 | the look-up of a profile's lab report by its key, with the same guarantees |
| `Models.JoinProfile` | data_processing.py:297-302 | a joined row holds the given profile, and for a stored profile every part is a stored row matching the foreign keys |
| `Models.JoinAll` | data_processing.py:297-302 | the inner join keeps profile order, drops no more than it has, and every row meets the join conditions |
| `Models.Join` | data_processing.py:297-302 | every row of the profile join meets the join conditions |
| `Models.JoinAllComplete` | models.py:114-118 | in a well-formed store (the foreign keys are non-nullable) no profile is lost: row `i` of the join is profile `i` |
| `Models.JoinProfileTotal` | models.py:114-118 | every profile of a well-formed store has its join row |
| `Models.JoinComplete` | models.py:114-118 | the join of a well-formed store has one row per profile, in order |
| `Models.FindOrCreate` | data_processing.py:40-48 | `filter_by(name=...).first()` or insert: the rows are kept when the name is present, the new row is appended when absent, and the id returned is that of a row with the name |
| `Models.FindOrCreateGrows` | data_processing.py:40-48 | find-or-create never removes rows |
| `Models.FindOrCreateAddsOnlyWhenAbsent` | data_processing.py:40-48 | rows added by repeated find-or-create never repeat a name already present |
| `Models.FindOrCreateKeyed` | data_processing.py:47-48 | in a keyed catalog the id returned is the position of a row with the name, and the catalog stays keyed |
| `Models.FanOut` | data_processing.py:152-159 | one copy of the alert per recipient |
| `Models.FanOutAt` | data_processing.py:156-159 | copy `i` carries the next id and is addressed to the `i`-th recipient |
| `Models.FanOutCopies` | data_processing.py:157-158 | each copy is the template with only its id and recipient changed |
| `Models.FanOutRecipients` | data_processing.py:156-158 | copies differ from the template only in id and recipient, and each names a distinct recipient |
| `Models.FanOutAppended` | data_processing.py:156-161 | after a fan-out the old alerts are kept and one copy per recipient follows, in user order |
| `Models.FanOutIndex` | data_processing.py:156-159 | the alert at a position past the old ones is the template addressed to the matching recipient, with the next id |
| `Models.FanOutKeyed` | models.py:136 | fanned-out alert ids continue the table's keys |
| `Models.FanOutRefers` | models.py:137 | fanned-out alerts address existing users and keep the template's pathogen and antibiotic references |
| `Models.FanOutWellFormed` | data_processing.py:152-161 | fanning out an alert whose references exist keeps the store well formed |
| `Models.FlagAlertEffect` | routes/alerts.py:59-109 | an unknown id or another user's alert leaves the store unchanged; otherwise only that alert changes, in the named flags |
| `Models.FlaggedKeepsIndex` | routes/alerts.py:63 | setting flags keeps ids, so the same alert is found again by `get_or_404` |
| `Models.FlagAlertComposes` | routes/alerts.py:70-105 | acknowledging twice is acknowledging once, and acknowledging then resolving equals dismissing |
| `Models.InstanceDictKeys` | data_processing.py:157 | an ORM instance's `__dict__` holds the attributes set on it plus `_sa_instance_state` |
| `Models.CopyIdiomAlwaysRaises` | data_processing.py:157 | `Alert(**alert.__dict__)` is always refused, since `_sa_instance_state` is not a mapped attribute |
| `Models.FanOutAsWritten` | data_processing.py:156-164 | the fan-out as written yields no alert: the first copy raises and the handler swallows the error |
| `Models.FanOutAsWrittenLosesAlert` | data_processing.py:156-164 | with one recipient the code as written creates no alert where the intended fan-out creates one |
| `Models.Database.constructor` | models.py:17-200 | the session starts from the given tables |
| `Models.Database.AddFanOut` | data_processing.py:156-161 | appends exactly the fan-out to the alerts table and changes nothing else |
| `Models.Database.SetAlertFlags` | routes/alerts.py:70-71 | sets the named flags on one alert and changes nothing else |
| `Models.Database.UpdateAlert` | routes/alerts.py:59-109 | the new tables and the outcome are those of `FlagAlert` |
| `Models.Database.Restore` | data_processing.py:124 | rollback: every table returns to the snapshot |
| `Utils.AllowedFile` | utils.py:12-17 | true exactly when the name holds a '.' and the text after its last '.', lower-cased, is `csv` or `json`; a name without '.' is refused |
| `Utils.LastDotOnly` | utils.py:17 | the '.' that `rsplit('.', 1)` splits at is the only one with no '.' after it, so testing that one extension is the same as asking for a last '.' followed by an allowed extension |
| `Utils.AllowedFileLastExtension` | utils.py:17 | "a.tar.JSON" is accepted: only the last extension counts, and its case does not |
| `Utils.AllowedFileNeedsDot` | utils.py:17 | "csv" is refused |
| `Utils.AllowedFileDoubleExtension` | utils.py:17 | "report.csv.exe" is refused |
| `Utils.EffectiveSalt` | utils.py:43-46 | a non-empty salt argument is used as given; a missing or empty one is replaced by `PATIENT_ID_SALT` when set, else by "default_salt" |
| `Utils.HashOfConcatenation` | utils.py:48-51 | two (identifier, salt) pairs with the same concatenation hash alike |
| `Utils.HashConcatenationExample` | utils.py:49-51 | ("ab", "c") and ("a", "bc") give the same hash |
| `Utils.HashFalsySalt` | utils.py:45-51 | with no salt or an empty one, the hash is that of the identifier followed by the environment salt, or by "default_salt" when that is unset |
| `Utils.NoDayFirstWithTime` | utils.py:145-152 | there are exactly six formats, and no day-first format carries a time of day |
| `Utils.TryFormatsFirst` | utils.py:154-158 | trying formats in order fails exactly when every format fails; otherwise the result is the parse of a format that succeeds with every earlier one failing |
| `Utils.FormatDateFirst` | utils.py:141-165 | `format_date` raises "Date format not recognized: " followed by the text exactly when all six formats fail; otherwise it returns the parse of the first format that succeeds |
| `Utils.FormatDateFirstWins` | utils.py:146-156 | a text that parses as `%Y-%m-%d` gets that parse, whatever the later formats would give |
| `Utils.RiskResistantAtMostTotal` | utils.py:60-77 | the resistant count in scope never exceeds the total count in scope |
| `Utils.CalculateResistanceRisk` | utils.py:53-89 | the risk lies in [0, 100] and is 0 when no result is in scope |
| `Utils.ResistanceRiskScaled` | utils.py:79-83 | with results in scope, risk × total = 100 × resistant, exactly |
| `DataProcessing.DatesDefault` | data_processing.py:61-74 | the report date is now and the sample date none when the field is absent or `format_date` raises; a readable report date is used as parsed |
| `DataProcessing.PatientIdentifierHashed` | data_processing.py:76-79 | a non-empty patient id is stored only as its hash under the environment salt, an empty one stays empty |
| `DataProcessing.PatientIdentifierAbsent` | data_processing.py:77 | a record without `patient_id` stores an empty identifier |
| `DataProcessing.ResistanceAlert` | data_processing.py:136-148 | the critical-resistance alert has severity 4, type `critical_resistance`, and is unread and not acted on |
| `DataProcessing.IngestAllSnoc` | data_processing.py:30-116 | ingesting one more record is one more step on the store the earlier records left |
| `DataProcessing.IngestAllPrefix` | data_processing.py:30-116 | the same step, stated on prefixes of the batch |
| `DataProcessing.IngestCount` | data_processing.py:33-36 | the count returned is exactly the number of records with `pathogen`, `antibiotic` and `result`, so at most the batch size |
| `DataProcessing.IngestKeeps` | data_processing.py:30-116 | ingestion leaves users, facilities and environmental samples unchanged |
| `DataProcessing.StoreRecordCatalogs` | data_processing.py:39-59 | storing a record adds a pathogen or antibiotic row only for a name not yet present |
| `DataProcessing.IngestCatalogs` | data_processing.py:39-59 | over a whole batch, catalog rows are added only for absent names, so a repeated name gets one row |
| `DataProcessing.StoreRecordEffect` | data_processing.py:81-106 | one complete record appends exactly one report and one profile that refers to it, with the result as given, and changes no other table but the catalogs |
| `DataProcessing.IngestRecordRows` | data_processing.py:32-112 | an incomplete record changes nothing; a complete one adds its report and profile whether or not it raises alerts |
| `DataProcessing.IngestRows` | data_processing.py:30-108 | the `k`-th complete record becomes the `k`-th new report and the `k`-th new profile |
| `DataProcessing.IngestAlerts` | data_processing.py:110-112 | each critical record (result 'R' and a truthy `is_critical`) adds one alert per doctor or public health official (as the code intends, with the corrected alert copy; see Findings data_processing.py:157) |
| `DataProcessing.StorePathogenKeyed` | data_processing.py:39-48 | the pathogen catalog stays keyed and the id used is that of a row with the record's name |
| `DataProcessing.StoreAntibioticKeyed` | data_processing.py:51-59 | the same for the antibiotic catalog |
| `DataProcessing.StoreCatalogsKeyed` | data_processing.py:39-59 | both catalogs together |
| `DataProcessing.StoreRecordParts` | data_processing.py:98-101 | the profile's pathogen and antibiotic ids are those the two look-ups returned |
| `DataProcessing.StoreRecordWellFormed` | data_processing.py:81-106 | storing a record keeps every key and foreign key valid |
| `DataProcessing.IngestRecordWellFormed` | data_processing.py:30-112 | one record of a batch, alerts included, keeps the store well formed |
| `DataProcessing.IngestWellFormed` | data_processing.py:14-121 | ingesting a batch for an existing facility and user keeps the store well formed |
| `DataProcessing.FindOrCreatePathogen` | data_processing.py:40-48 | the catalog and id are those of find-or-create; no other table changes |
| `DataProcessing.FindOrCreateAntibiotic` | data_processing.py:52-59 | the same for antibiotics |
| `DataProcessing.CreateResistanceAlert` | data_processing.py:128-164 | appends one copy of the critical alert per doctor or public health official, as the code intends |
| `DataProcessing.ProcessLabData` | data_processing.py:14-126 | "Invalid facility ID" or "Invalid user ID" without changing the store; otherwise the ingested store and count (as the code intends, with the corrected alert copy; see Findings data_processing.py:157) |
| `DataProcessing.IngestBatch` | data_processing.py:30-116 | the loop over the records leaves the store and count of ingesting the whole batch |
| `DataProcessing.IngestNext` | data_processing.py:30-116 | one turn of the loop advances the store and count by one record |
| `DataProcessing.IngestOne` | data_processing.py:31-112 | the loop body: skip an incomplete record, otherwise store it and raise its alerts |
| `DataProcessing.StoreOne` | data_processing.py:38-106 | the store and ids after the look-ups, the report and the profile of one record |
| `DataProcessing.EnvSeverity` | data_processing.py:242-247 | severity 5 exactly above a load of 1000, 4 exactly above 500 up to 1000, and 3 with no load or a load up to 500 |
| `DataProcessing.EnvironmentalAlert` | data_processing.py:250-262 | the alert is an `environmental_detection` graded by the load, placed at the sample, for its pathogen and no antibiotic |
| `DataProcessing.EnvPathogenKeyed` | data_processing.py:187-202 | a detected sample with a name refers to a catalog row with that name, and the catalog only grows by absent names |
| `DataProcessing.ProcessEnvironmentalErrors` | data_processing.py:170-177 | the call fails exactly for an unknown user or an unreadable collection date, and then changes nothing |
| `DataProcessing.EnvAlertsAre` | data_processing.py:237-269 | a sample whose pathogen is found fans that pathogen's alert out to the officials (as the code intends, with the corrected alert copy; see Findings data_processing.py:157) |
| `DataProcessing.EnvAlertsFrame` | data_processing.py:264-271 | one alert per public health official is appended and nothing else changes (as the code intends, with the corrected alert copy; see Findings data_processing.py:157) |
| `DataProcessing.EnvAlertsContent` | data_processing.py:250-268 | each appended alert has the right type, severity, recipient and pathogen (as the code intends, with the corrected alert copy; see Findings data_processing.py:157) |
| `DataProcessing.ProcessEnvironmentalStores` | data_processing.py:204-226 | a successful call appends one sample with the next id and touches only pathogens, samples and alerts (as the code intends, with the corrected alert copy; see Findings data_processing.py:157) |
| `DataProcessing.WithSampleWellFormed` | data_processing.py:204-220 | storing a sample by an existing user keeps the store well formed |
| `DataProcessing.EnvAlertsWellFormed` | data_processing.py:264-271 | the environmental alerts keep the store well formed |
| `DataProcessing.ProcessEnvironmentalOk` | data_processing.py:204-226 | a successful call leaves the sample stored and, when a named pathogen was detected, its alerts (as the code intends, with the corrected alert copy; see Findings data_processing.py:157) |
| `DataProcessing.ProcessEnvironmentalWellFormed` | data_processing.py:166-231 | processing a sample keeps the store well formed |
| `DataProcessing.ProcessEnvironmentalSample` | data_processing.py:166-231 | the new store and result are those of `ProcessEnvironmental`, with the generated id passed in |
| `DataProcessing.CreateEnvironmentalAlert` | data_processing.py:233-274 | the new store is that of `EnvAlerts` (as the code intends, with the corrected alert copy; see Findings data_processing.py:157) |
| `DataProcessing.ClassifyPercent` | data_processing.py:316-327 | Very High from 75 %, High from 50 %, Medium from 25 %, else Low, each an exact range |
| `DataProcessing.ClassifyMonotone` | data_processing.py:316-327 | a higher percentage never gets a lower level |
| `DataProcessing.ClassifyCounts` | data_processing.py:308-327 | stated on counts: no samples is Low, otherwise each level compares 100 × resistant with the total |
| `DataProcessing.ClassifyLoad` | data_processing.py:376-386 | a sample is Very High above a load of 1000, High above 500, otherwise Medium, and never Low |
| `DataProcessing.EnvSeverityMatchesLoadRisk` | data_processing.py:242-247 | the alert's severity and the map's level grade loads alike: 3, 4, 5 for Medium, High, Very High |
| `DataProcessing.Groups` | data_processing.py:293-305 | one row per name, holding the count of that name's rows and the count of its resistant ones |
| `DataProcessing.GroupSums` | data_processing.py:308-309 | the sums over the groups are the sums of the rows of those names |
| `DataProcessing.GroupTotals` | data_processing.py:308-309 | grouping loses no row: group sizes add up to all rows, resistant counts to the resistant rows |
| `DataProcessing.GroupsPresent` | data_processing.py:293-305 | each group of a name that occurs has at least one row, no more resistant than rows, and at most 100.0 % |
| `DataProcessing.FacilityTotals` | data_processing.py:293-309 | a facility's totals count every profile reported there, and exactly those with result 'R' as resistant |
| `DataProcessing.ShareOfPresent` | data_processing.py:332-337 | the share of a name that occurs has samples and at most 100.0 % |
| `DataProcessing.BreakdownComplete` | data_processing.py:330-341 | the breakdown lists each pathogen of the facility once, sorted by descending percentage |
| `DataProcessing.TenthsBounded` | data_processing.py:337 | `round(resistant / total * 100, 1)` never exceeds 100.0 |
| `DataProcessing.FacilityPointSummary` | data_processing.py:307-356 | a plotted facility reports all its profiles, its resistant ones and the level their ratio earns |
| `DataProcessing.FacilityPointsAre` | data_processing.py:287-290 | the facility points are those of facilities with coordinates, in table order |
| `DataProcessing.SamplePointsAre` | data_processing.py:359-374 | the sample points are those of detected samples with non-zero coordinates, in table order |
| `DataProcessing.ResistanceMapShape` | data_processing.py:276-404 | facilities come first, then samples, and no sample point is Low |
| `DataProcessing.SamplePointRisk` | data_processing.py:376-402 | a sample point is graded by its load |
| `DataProcessing.GenerateResistanceMap` | data_processing.py:276-408 | the points built are those of `ResistanceMap` |
| `DataProcessing.FacilityEntry` | data_processing.py:307-356 | one facility's entry from its groups |
| `DataProcessing.SumGroups` | data_processing.py:308-309 | the loop sums the totals and the resistant counts of the groups |
| `DataProcessing.RowsWithSamples` | data_processing.py:330-338 | the loop keeps exactly the groups with samples, in order |
| `MlModels.DailyRowsOf` | ml_models.py:20-46 | one row per group key, holding the key's count of profiles and of resistant ones |
| `MlModels.DailyRowPresent` | ml_models.py:38-46 | a key that occurs counts at least one profile and no more resistant ones than profiles |
| `MlModels.DailyRowsSound` | ml_models.py:17-46 | every daily row of the last 30 days counts at least one profile, and no more resistant ones |
| `MlModels.OutbreakSeverity` | ml_models.py:91-96 | severity 5 exactly above 80 %, 4 exactly above 60 % and up to 80 %, otherwise 3 |
| `MlModels.OutbreaksOfPrefix` | ml_models.py:66-112 | one more group is one more step of the group loop |
| `MlModels.OutbreaksAre` | ml_models.py:66-112 | for any sequence of groups: one outbreak per signalling group, in the order of the sequence, each describing the group's last row (one per facility and day) |
| `MlModels.TextBeforeTotal` | ml_models.py:66 | Python's string order is total: two strings are equal or one comes first |
| `MlModels.TextBeforeTransitive` | ml_models.py:66 | Python's string order is transitive |
| `MlModels.PlaceBeforeTotal` | ml_models.py:66 | the group-key order is total on distinct keys |
| `MlModels.PlaceBeforeTransitive` | ml_models.py:66 | the group-key order is transitive |
| `MlModels.InsertPlace` | ml_models.py:66 | inserting a key adds exactly that key to the multiset |
| `MlModels.InsertPlaceAscending` | ml_models.py:66 | inserting a new key into an ascending sequence keeps it ascending |
| `MlModels.SortPlaces` | ml_models.py:66 | the sorted keys are a permutation of the input |
| `MlModels.SortPlacesAscending` | ml_models.py:66 | distinct keys come out strictly ascending |
| `MlModels.PlaceKeysAre` | ml_models.py:66 | `groupby` walks exactly the (state, city, pathogen id, pathogen name) keys of the rows with a state and a city, each once, in ascending order, strings compared by code point |
| `MlModels.FilterPlacesAscending` | ml_models.py:66-70 | skipping groups keeps the remaining ones in ascending order |
| `MlModels.OutbreaksInGroupOrder` | ml_models.py:66-112 | `predict_outbreak` reports one outbreak per signalling group, in ascending group-key order, each describing that group's last row (one per facility and day) |
| `MlModels.OutbreakForBounds` | ml_models.py:85-110 | a signalling group's outbreak has a last row above 50 % and severity 3 to 5 |
| `MlModels.OutbreakBounds` | ml_models.py:85-112 | every reported outbreak has a last row above 50 % and severity 3 to 5 |
| `MlModels.IneligibleNeverSignals` | ml_models.py:71-72 | fewer than three rows (one per facility and day), or fewer than ten samples in all, never signal |
| `MlModels.SignalExample` | ml_models.py:81-96 | rows at 25 %, 25 % and 75 % of four samples each signal, with severity 4 |
| `MlModels.SignalAtEighty` | ml_models.py:81-96 | rows at 10 %, 10 % and 80 % of twenty samples each signal, with severity 4, since 80 is not above 80 |
| `MlModels.NoSignalAtFifty` | ml_models.py:85 | the same rows with the last at 50 % do not signal, since 50 is not above 50 |
| `MlModels.PredictOutbreak` | ml_models.py:10-118 | the outbreaks returned are those of the daily rows of the store, in ascending group-key order (see `OutbreaksInGroupOrder`) |
| `MlModels.DetectOutbreaks` | ml_models.py:66-114 | the loop over the groups returns exactly `Outbreaks(rows)` |
| `MlModels.GroupLoop` | ml_models.py:66-112 | for any sequence of place groups, the loop returns the outbreaks of the signalling ones, in that order (`OutbreaksOf`) |
| `MlModels.GroupOutbreak` | ml_models.py:68-112 | the loop body yields the group's outbreak exactly when it signals |
| `MlModels.CheckGroup` | ml_models.py:71-85 | the loop computing eligibility, the mean of the rows (one per facility and day) before the last one, and the comparison decides `Signal` |
| `MlModels.EffectivenessOf` | ml_models.py:165 | High below 20 %, Medium from 20 % below 50 %, Low from 50 % |
| `MlModels.EffectivenessCounts` | ml_models.py:158-165 | the same, stated on the counts: High when 100 × resistant < 20 × total, Low when 100 × resistant ≥ 50 × total |
| `MlModels.RecommendationsOfSound` | ml_models.py:156-168 | every recommendation has samples, at most 100 % and the effectiveness of its percentage |
| `MlModels.RecommendationsSound` | ml_models.py:120-173 | the recommendations are sound and sorted by ascending resistance |
| `MlModels.RecommendationsCover` | ml_models.py:126-168 | the list is a permutation of the grouped rows with samples; each row's share is the resistant count over the sample count of its antibiotic among the pathogen's profiles in the region; an antibiotic has its row exactly when some such profile tests it |
| `MlModels.RecommendationsUnique` | ml_models.py:147-150 | in a keyed store no antibiotic id has two rows |
| `MlModels.RecommendationsOfFrom` | ml_models.py:154-168 | every grouped row with samples is the row of one of the grouped antibiotics |
| `MlModels.RecommendationsOfHas` | ml_models.py:154-168 | every grouped antibiotic with samples has its row |
| `MlModels.RecommendationsOfDistinct` | ml_models.py:154-168 | antibiotics with distinct ids give rows with distinct ids |
| `MlModels.ScopeAntibioticIdsDistinct` | ml_models.py:147-150 | in a keyed store the grouped antibiotics have distinct ids |
| `MlModels.GetTreatmentRecommendations` | ml_models.py:120-177 | the result is that of `Recommendations` for the pathogen and region |
| `MlModels.RecommendationRows` | ml_models.py:154-168 | the loop keeps exactly the grouped rows with samples |
| `MlModels.SpreadSound` | ml_models.py:195-228 | environmental samples are skipped, one prediction per facility point, each at most 100 % and graded by the map's rule |
| `MlModels.SpreadRaises` | ml_models.py:206-221 | with an increase from 2 to 8 the forecast never falls below today's level, rises by at least 2 points unless capped, and never earns a lower level |
| `MlModels.PredictResistanceSpread` | ml_models.py:179-234 | the forecast is that of `Spread` over the current map |
| `MlModels.ForecastPoints` | ml_models.py:193-230 | the loop over the current map returns `Spread` of it |
| `MlModels.SpreadPrefix` | ml_models.py:195-228 | one more point is one more step of the forecast loop |
| `Routes.TrendStartAsWritten` | routes.py:428-429 | the window start as written is the first of a valid month at midnight |
| `Routes.TrendTilesAsWritten` | routes.py:428-436 | as written each window ends where the next one starts, and the current one ends at `now` |
| `Routes.TrendWrapsForward` | routes.py:428-429 | as written an offset reaching back past January lands one year ahead, and the December window before is empty |
| `Routes.TrendWindowAsWrittenExample` | routes.py:426-436 | on 15 March 2024 the offset-3 window as written runs from December 2025 to January 2024, where December 2023 is meant, and holds no report |
| `Routes.TrendAsWrittenAgreesWithinYear` | routes.py:428-433 | the corrected windows agree with the code for every offset that stays within the current year |
| `Routes.TrendStartMonth` | routes.py:428-429 | each corrected window starts at midnight on the first of the month exactly `i` months before `now`'s |
| `Routes.TrendWindowMembership` | routes.py:439-444 | a report falls in window `i` exactly when it is dated in the month `i` months back and before `now` |
| `Routes.TrendWindowsPartition` | routes.py:426-444 | the twelve windows cover exactly the span from eleven months back up to `now`, and no report falls in two |
| `Routes.TrendPointsLength` | routes.py:426-465 | the loop appends one entry per offset |
| `Routes.TrendPointsAt` | routes.py:426-465 | entry `j` is the one for offset `11 - j` |
| `Routes.TrendPointsAre` | routes.py:426-465 | every entry is the one for its offset |
| `Routes.TrendPointFacts` | routes.py:439-465 | the entry for a position counts the reports of its window, and those with result 'R' among them, with the rounded percentage |
| `Routes.TrendPointsShape` | routes.py:424-467 | twelve entries, oldest month first, empty months included, each counting its own window |
| `Routes.TrendStartsIncrease` | routes.py:426-429 | a window further back starts earlier |
| `Routes.ResistanceTrendsShape` | routes.py:413-467 | the endpoint's series over the joined profiles has the same shape |
| `Routes.TrendPointsSnoc` | routes.py:426-465 | one turn of the loop appends the entry of its offset |
| `Routes.ResistanceTrendsApi` | routes.py:413-467 | the endpoint returns `ResistanceTrends` of the store |
| `Routes.TrendLoop` | routes.py:426-465 | the loop `for i in range(11, -1, -1)` builds the twelve entries |
| `Routes.TopPathogensRanked` | routes.py:478-488 | at most ten pathogens, a prefix of the groups sorted by descending resistant count, which is a permutation of the groups |
| `Routes.TopPathogensKeepAll` | routes.py:491-499 | every listed row has samples, so the `total > 0` test drops none; with ten pathogens or fewer every profile is counted |
| `Routes.TopPathogensApi` | routes.py:473-505 | the endpoint returns `TopPathogens` of the store |
| `Routes.GroupsAllKept` | routes.py:394-395 | the `total > 0` test keeps every group of rows that occur |
| `Routes.GuidanceStatsFound` | routes.py:376 | statistics exist exactly for a known pathogen; an unknown id is a 404 |
| `Routes.GuidanceStatsGroups` | routes.py:380-402 | for a known pathogen the statistics are the antibiotic groups themselves |
| `Routes.GuidanceStatsAre` | routes.py:380-402 | one row per antibiotic name in order, which together count every profile of the pathogen once, and its resistant ones |
| `Routes.PathogenGuidance` | routes.py:373-409 | the route computes `GuidanceStats` |
| `Routes.OutbreakAlert` | routes.py:224-234 | an outbreak alert has the outbreak's severity, region and pathogen, no antibiotic, and is unread and open |
| `Routes.OutbreakAlertsFrame` | routes.py:221-246 | only the alerts table changes; it keeps its rows and gains one alert per outbreak and official (as the code intends, with the corrected alert copy; see Findings data_processing.py:157) |
| `Routes.OutbreakAlertsContent` | routes.py:222-241 | each added alert is one outbreak's alert addressed to an official, with the next free id (as the code intends, with the corrected alert copy; see Findings data_processing.py:157) |
| `Routes.OutbreakAlertsSound` | routes.py:215-246 | every alert added for detected outbreaks is an unread outbreak alert of severity 3 to 5 for a public health official (as the code intends, with the corrected alert copy; see Findings data_processing.py:157) |
| `Routes.CheckForOutbreaks` | routes.py:215-249 | the store after the job is `OutbreakAlerts` of the detector's outbreaks, as the code intends |
| `Routes.RaiseOutbreakAlerts` | routes.py:222-246 | the loop over the outbreaks leaves `OutbreakAlerts` |
| `Routes.MarkAlertRead` | routes.py:261-273 | 404 for an unknown alert, 403 for another user's, otherwise only `read` is set |
| `Routes.MarkAlertAction` | routes.py:275-287 | 404 for an unknown alert, 403 for another user's, otherwise only `action_taken` is set |
| `Dashboard.TallyOf` | routes/dashboard.py:142-151 | one row per pathogen, holding its name and the number of joined rows that report it |
| `Dashboard.SumTallyCounts` | routes/dashboard.py:142-151 | the tally's counts add up to the rows of the pathogens tallied |
| `Dashboard.TallyPositive` | routes/dashboard.py:142-151 | every pathogen that occurs has a row with a positive count |
| `Dashboard.TallyTotal` | routes/dashboard.py:142-151 | the rows account for every joined row once |
| `Dashboard.PathogenTallyShape` | routes/dashboard.py:142-153 | one row per pathogen that occurs, busiest first, a permutation of the grouped rows, none empty, all rows accounted for |
| `Dashboard.HomeRate` | routes/dashboard.py:23-25 | the home page's rate lies in [0, 100], is 0 exactly when no profile is resistant, and 100 exactly when every profile is |
| `Dashboard.HomeRecent` | routes/dashboard.py:28 | the recent reports are at most five stored reports, newest first, and none left out is newer than one kept |
| `Dashboard.TopTallies` | routes/dashboard.py:40-42 | the five busiest rows of a tally: at most five, busiest first, none left out busier than one kept |
| `Dashboard.TopTalliesPositive` | routes/dashboard.py:31-42 | none of the five busiest rows is empty |
| `Dashboard.HomeCommonResistant` | routes/dashboard.py:31-42 | the common resistant pathogens: at most five, busiest first, none empty, none left out with more resistant results than one kept |
| `Dashboard.PathogenDistributionComplete` | routes/dashboard.py:138-154 | on a well-formed store the distribution is sorted by count and accounts for every profile exactly once |
| `Dashboard.DataPointsAre` | routes/dashboard.py:64-88 | the points are those of facilities with both coordinates set, in table order |
| `Dashboard.MapDataShape` | routes/dashboard.py:57-90 | each point is a located facility of the store, with the resistant percentage of its profiles in [0, 100], 0 without any |
| `Dashboard.LocatedIncludesPlotted` | routes/dashboard.py:64-67 | every facility the resistance map plots is also located here |
| `Dashboard.EquatorFacilityExample` | routes/dashboard.py:64-67 | a facility at latitude 0.0 is on this endpoint's map but not on the resistance map, whose truthiness test drops it |
| `Dashboard.EffectsOf` | routes/dashboard.py:160-170 | one row per antibiotic, holding its counts |
| `Dashboard.EffectPercents` | routes/dashboard.py:173-181 | the three percentages are those of their categories, add up to at most 100, and to exactly 100 exactly when every result is "S", "I" or "R" |
| `Dashboard.AntibioticEffectivenessShape` | routes/dashboard.py:156-183 | one row per tested antibiotic, each with a positive total |
| `Dashboard.RegionCounts` | routes/dashboard.py:189-201 | one count row per state |
| `Dashboard.RegionRates` | routes/dashboard.py:203-209 | one rate per count row |
| `Dashboard.RegionRatesSnoc` | routes/dashboard.py:204-209 | one more row is one more step of the loop |
| `Dashboard.RegionalKeepsAll` | routes/dashboard.py:205 | every state group has profiles, so the `total > 0` test keeps them all |
| `Dashboard.RegionRows` | routes/dashboard.py:189-209 | one row per grouped state, each with that state's resistant share |
| `Dashboard.RegionalComparisonShape` | routes/dashboard.py:185-211 | each state appears once, with the resistant share of its profiles |
| `Dashboard.RegionRowsCover` | routes/dashboard.py:198-200 | the rows name exactly the grouped states |
| `Dashboard.StateGrouped` | routes/dashboard.py:193-200 | a state is grouped exactly when a profile comes from a facility with that state |
| `Dashboard.RegionalComparisonCovers` | routes/dashboard.py:185-211 | a state has a row exactly when some profile was reported from a facility of that state |
| `Dashboard.NextMonthStart` | routes/dashboard.py:131-134 | the loop's step is midnight on the first of the next month, January of the next year after December |
| `Dashboard.MonthEndAsWritten` | routes/dashboard.py:105 | the month end as written is undefined exactly where `datetime(year, month + 1, 1)` raises, which is every December |
| `Dashboard.WalkRaisesAtDecember` | routes/dashboard.py:104-105 | a walk that reaches a December before the end raises there |
| `Dashboard.ResistanceTrendsAsWrittenRaises` | routes/dashboard.py:94-136 | the 365-day window always contains a December before `now`, so the endpoint as written fails on every call |
| `Dashboard.LastDayGap` | routes/dashboard.py:105-121 | a report on a month's last day after midnight falls after that month's end as written and before the next month starts |
| `Dashboard.LastDayGapExample` | routes/dashboard.py:105-121 | a report at noon on 31 May 2023 is counted in no month as written |
| `Dashboard.PointsAt` | routes/dashboard.py:104-128 | one entry per visited date |
| `Dashboard.PointsAtAre` | routes/dashboard.py:104-128 | entry `k` is the one for the `k`-th visited date |
| `Dashboard.NextStepStart` | routes/dashboard.py:131-134 | stepping from the next month's start is one more step from the current date |
| `Dashboard.StartsSteps` | routes/dashboard.py:103-134 | the walk visits step after step while the date is before the end, and stops at the first that is not |
| `Dashboard.TrendStartsShape` | routes/dashboard.py:96-134 | the walk starts 365 days before `now` and visits at least twelve months, one step apart |
| `Dashboard.EarlySteps` | routes/dashboard.py:96-104 | the first twelve steps from a year back all lie before `now` |
| `Dashboard.ResistanceTrendsCounts` | routes/dashboard.py:104-128 | entry `k` counts the reports of its date's month from that date on, and the resistant ones, with a rate in [0, 100] |
| `Dashboard.StepsCover` | routes/dashboard.py:103-134 | a date from the start up to `now` lies in the window of exactly one step |
| `Dashboard.ResistanceTrendsCover` | routes/dashboard.py:94-136 | every report dated from the walk's start up to `now` is counted in exactly one entry |
| `Dashboard.WindowsAgreeBeforeLastDay` | routes/dashboard.py:105-121 | on a date the code does handle, before the last day or at its midnight, both windows count it |
| `Dashboard.MapDataApi` | routes/dashboard.py:57-90 | the endpoint returns `MapData` of the store |
| `Dashboard.FacilityLevel` | routes/dashboard.py:71-77 | the resistant percentage of a facility's profiles, 0 when it has none |
| `Dashboard.ResistanceTrendsApi` | routes/dashboard.py:92-136 | the endpoint returns `ResistanceTrends`, with the intended month windows |
| `Dashboard.StepMonth` | routes/dashboard.py:131-134 | the step computed is `NextMonthStart` |
| `Dashboard.TrendLoopStep` | routes/dashboard.py:104-134 | one turn of the loop visits the date and appends its entry |
| `Dashboard.MonthEntry` | routes/dashboard.py:105-128 | the two counting queries of one month and its rate |
| `Dashboard.AntibioticEffectivenessApi` | routes/dashboard.py:156-183 | the endpoint returns `AntibioticEffectiveness` |
| `Dashboard.RegionalComparisonApi` | routes/dashboard.py:185-211 | the endpoint returns `RegionalComparison` |
| `Dashboard.RatesOfTested` | routes/dashboard.py:203-209 | the loop keeps the tested rows and maps each to its rate |
| `DataRoutes.RegionEntries` | routes/data.py:183-191 | one entry per grouped state |
| `DataRoutes.ResistanceByRegionCounts` | routes/data.py:165-193 | each state appears once, with the counts of its profiles and their resistant share |
| `DataRoutes.ResistanceByRegionAgrees` | routes/data.py:165-193 | this endpoint and the dashboard's regional comparison list the same states with the same rates |
| `DataRoutes.ResistanceByRegionCovers` | routes/data.py:169-181 | a state has an entry exactly when some profile was reported from a facility of that state; a facility without a state contributes nothing |
| `DataRoutes.Bound` | routes/data.py:109-115 | a given date bound is parsed with `%Y-%m-%d` and raises when it does not parse; an absent or empty one adds no filter |
| `DataRoutes.GivenId` | routes/data.py:102-107 | a falsy id (absent or 0) adds no filter |
| `DataRoutes.ViewDataFails` | routes/data.py:109-115 | the list fails exactly when a given bound does not parse |
| `DataRoutes.ViewDataMembership` | routes/data.py:99-119 | a report is listed exactly when it is stored and meets every given filter, both date bounds inclusive |
| `DataRoutes.ViewDataNewestFirst` | routes/data.py:99-119 | the list is ordered by `report_date`, newest first, and is a permutation of the stored reports that pass the filter |
| `DataRoutes.ViewDataZeroId` | routes/data.py:102-105 | an id of 0 filters nothing, exactly as an absent one |
| `DataRoutes.ViewDataDropsRestOfLastDay` | routes/data.py:113-115 | a report later than midnight on the `date_to` day is not listed |
| `DataRoutes.ProcessCsvData` | routes/data.py:195-201 | the CSV processor stores nothing and reports 0 records |
| `DataRoutes.ProcessJsonData` | routes/data.py:203-209 | the JSON processor stores nothing and reports 0 records |
| `DataRoutes.FormProfilesPaired` | routes/data.py:251-261 | exactly one profile per index present in both lists, pairing antibiotic `i` with result `i` |
| `DataRoutes.FormSubmissionFails` | routes/data.py:211-263 | the submission fails exactly on a missing or unparseable collection date, a missing facility (the flush meets a NOT NULL column), or a missing pathogen when some antibiotic is paired with a result (the commit meets a NOT NULL column); only the last two are IntegrityErrors |
| `DataRoutes.FormSubmissionAdds` | routes/data.py:215-263 | one report from the current user for the posted facility, with the parsed date and hashed identifier, plus min(#antibiotics, #results) profiles of that report for the posted pathogen; no other table changes |
| `DataRoutes.FormAbsentIdentifier` | routes/data.py:220-224 | an absent identifier is hashed as the text "None" rather than refused |
| `DataRoutes.ProcessFormData` | routes/data.py:211-269 | a failing date, flush or commit rolls back and re-raises with the store unchanged; otherwise the store is that of `FormSubmission` |
| `DataRoutes.AddFormProfiles` | routes/data.py:251-261 | the profile loop appends exactly `FormProfiles` |
| `Treatment.Stats` | routes/treatment.py:39-57 | one row per tested antibiotic, in the same order |
| `Treatment.TestedAntibioticsAre` | routes/treatment.py:33-37 | the antibiotics listed are exactly those some profile of the pathogen refers to, each once |
| `Treatment.PathogenGuidanceRows` | routes/treatment.py:22-62 | the statistics exist exactly for a known pathogen (an unknown id is a 404), one row per tested antibiotic |
| `Treatment.StatOfTested` | routes/treatment.py:41-50 | a row's total is the number of profiles of the pair, positive for a tested antibiotic; resistant counts those with 'R'; the percentage is at most 100 |
| `Treatment.RoundExact` | routes/treatment.py:50 | Python's `round` of an exact whole number is that number |
| `Treatment.StatOfExtremes` | routes/treatment.py:46-50 | with no 'R' result for the pair the row reads 0 %, and with only 'R' results 100 % |
| `Treatment.ResistanceStatistics` | routes/treatment.py:29-57 | the route's loop computes `PathogenGuidance` |
| `Treatment.CountPair` | routes/treatment.py:41-47 | the counting loop gives `len(profiles)` and the number with result 'R' |
| `Treatment.PathogenResistanceApi` | routes/treatment.py:64-69 | the chart endpoint returns nothing |
| `Alerts.AlertsViewMembership` | routes/alerts.py:19-44 | an alert is listed exactly when it is the caller's and passes every filter given (type, non-zero severity, `read`, `action_taken`); the list is newest first |
| `Alerts.FlagParamExamples` | routes/alerts.py:34-40 | a flag parameter selects true only for 'true' in any letter case; '1', 'yes' and '' select false |
| `Alerts.AcknowledgeAlert` | routes/alerts.py:59-74 | an unknown id is a 404, another user's alert is refused and unchanged, otherwise `read` is set |
| `Alerts.ResolveAlert` | routes/alerts.py:76-91 | an unknown id is a 404, another user's alert is refused and unchanged, otherwise `action_taken` is set |
| `Alerts.DismissAlert` | routes/alerts.py:93-109 | an unknown id is a 404, another user's alert is refused and unchanged, otherwise both flags are set |
| `Alerts.TransitionsSetTheirFlags` | routes/alerts.py:70-105 | acknowledging sets only `read`, resolving only `action_taken`, dismissing both; no other field changes |
| `Alerts.TransitionOwnership` | routes/alerts.py:63-71 | on the caller's own alert exactly that alert changes; on another user's the store is left as it was |
| `Alerts.Target` | routes/alerts.py:128-133 | 'all' selects every role; any other value must name a role, or `UserRole(target_role)` raises |
| `Alerts.CreateAlertRefused` | routes/alerts.py:115-150 | a non-admin is refused and an unknown role raises; the commit fails exactly when there is a recipient and the title or the message is missing (NOT NULL columns); in all three cases nothing is stored |
| `Alerts.CreateAlertSends` | routes/alerts.py:120-152 | when the alerts are sent, title and message were posted; one alert per recipient in user order, with that title and message, appended after the existing alerts, and the count reported is the number of recipients |
| `Alerts.RecipientsAre` | routes/alerts.py:130-133 | a user receives the alert exactly when active and, unless the target is 'all', of the target role |
| `Alerts.CreateAlert` | routes/alerts.py:111-153 | the route's loop over the recipients has the effect `CreateAlertEffect` states |
| `Alerts.LatestAlertsAre` | routes/alerts.py:164-187 | the latest alerts are exactly the caller's unread ones created in the last 24 hours, newest first |
| `Alerts.GetAlertCounts` | routes/alerts.py:189-214 | the unread count is the number of the caller's unread alerts; the dictionary has a key exactly for each severity among them, holding that severity's count |
| `Alerts.UnreadCountIsSum` | routes/alerts.py:193-209 | the severity counts add up to the unread count |
| `Alerts.SeverityGroupsPopulated` | routes/alerts.py:196-204 | each severity group holds at least one unread alert |
| `Auth.AdminRequired` | routes/auth.py:16-23 | the decorated view runs exactly for a logged-in administrator; every other visitor is redirected to the login page |
| `Auth.AdminRequiredRejects` | routes/auth.py:19-21 | an anonymous visitor and a user of any role other than administrator are redirected |
| `Auth.CandidateInjective` | routes/auth.py:69-73 | the names `base`, `base1`, `base2`, … that the loop tries are pairwise different |
| `Auth.FreeNameFirst` | routes/auth.py:69-73 | the username found is not in use, and it is the first free one of `base`, `base1`, `base2`, … |
| `Auth.UniqueUsername` | routes/auth.py:67-73 | the loop ends, and returns the first free name derived from the part of the email before '@' |
| `Auth.FirebaseLoginInvalid` | routes/auth.py:36-46 | an unverified token logs nobody in and changes nothing, unless the development fallback is on, which logs in the development account |
| `Auth.ResolveUserOrder` | routes/auth.py:58-91 | a user with the token's uid is taken as is; otherwise the first user with the email is linked to the uid; otherwise a new user is appended |
| `Auth.NewFirebaseUserFresh` | routes/auth.py:66-91 | a created user's username is the first free name derived from the email, and the user gets the column's default role |
| `Auth.ResolveUserKeepsUnique` | routes/auth.py:58-91 | the login keeps usernames, emails and Firebase uids unique, and the user logged in is stored and carries the uid |
| `Auth.ResolveUserKeyed` | routes/auth.py:58-91 | a linked user keeps its id, a created one gets the next id, and only the users table changes |
| `Auth.FirebaseLoginMethod` | routes/auth.py:32-96 | the token branch of the route has the effect `FirebaseLogin` states |
| `Auth.RegisterOutcome` | routes/auth.py:129-156 | registration is refused, leaving the store as it was, exactly when the username or the email is in use; otherwise one user is appended with the form's username and email and the doctor role |
| `Auth.RegisterKeepsUnique` | routes/auth.py:130-156 | registration keeps usernames and emails unique, given a Firebase uid not already stored |
| `Auth.RegisterKeyed` | routes/auth.py:146-156 | a registered user gets the next id |
| `Auth.RegisterMethod` | routes/auth.py:123-159 | the route's POST branch has the effect `Register` states |
| `Admin.AdminDashboardCounts` | routes/admin.py:26-30 | the dashboard counts the active users, at most all users, and reports zero for lab reports, alerts and resistance patterns |
| `Admin.Coordinate` | routes/admin.py:74-75 | an empty or missing coordinate is stored as `None`; otherwise it is the parsed number, and a value `float` rejects is an error |
| `Admin.AddFacilityOutcome` | routes/admin.py:49-84 | the form is refused exactly when the name, city or country is missing or empty, and then nothing changes; a success appends one facility with the next id and the form's values, and changes no other table |
| `Admin.AddFacilityKeepsWellFormed` | routes/admin.py:66-81 | adding a facility keeps every table's ids and references well-formed |
| `Admin.AdminViewsGuarded` | routes/admin.py:9-47 | only an administrator reaches the dashboard and the add-facility view |
| `Admin.AddFacilityMethod` | routes/admin.py:47-84 | the route's POST branch has the effect `AddFacility` states |
| `OfflineManager.EntriesObjectLastWins` | static/js/offline-manager.js:205-210 | the stored data has a key exactly for each field of the form, holding the value of its last entry |
| `OfflineManager.StatusDisplayCases` | static/js/offline-manager.js:295-321 | the four known statuses get distinct texts and colour classes, which do not depend on what was shown before; any other status clears the colour and keeps the text |
| `OfflineManager.FailedUploads` | static/js/offline-manager.js:253-279 | the queue after a sync holds exactly the uploads that were not delivered, in their original order, and is empty exactly when all were delivered |
| `OfflineManager.OfflineStore.constructor` | static/js/offline-manager.js:214 | a store starts with an empty queue |
| `OfflineManager.OfflineStore.UpdateSyncStatus` | static/js/offline-manager.js:295-321 | without an indicator nothing changes; with one, the text and colour become those of the status; the queue is untouched |
| `OfflineManager.OfflineStore.StoreFormData` | static/js/offline-manager.js:202-226 | exactly one upload, holding the form's entries, is appended to the queue, and the status becomes 'pending' |
| `OfflineManager.SendAll` | static/js/offline-manager.js:253-276 | the send loop keeps exactly the uploads that were not delivered, in their order |
| `OfflineManager.OfflineStore.SyncPendingUploads` | static/js/offline-manager.js:238-287 | offline, nothing changes; online, the queue becomes the failed uploads in order, and the status is 'pending' if any failed and 'up-to-date' otherwise (also for an empty queue) |
| `OfflineManager.OfflineStore.GetPendingUploadsCount` | static/js/offline-manager.js:382-385 | the count is the queue's length |
| `OfflineManager.StoreThenSync` | static/js/offline-manager.js:214-279 | an upload stored and then not delivered stays at the end of the queue; a delivered one leaves it; if nothing is delivered the queue is kept whole |
| `Notifications.PaddingLength` | static/js/notifications.js:195 | the padding count is below 4 and makes the length a multiple of 4; it is 0 exactly when the length already is one |
| `Notifications.Repeat` | static/js/notifications.js:195 | `'='.repeat(n)` has length `n` and only '=' characters |
| `Notifications.ToStandard` | static/js/notifications.js:196-198 | the two replacements keep the length and turn each '-' into '+' and each '_' into '/', leaving every other character |
| `Notifications.ToUrlSafe` | static/js/notifications.js:196-198 | the reverse mapping of section 5 of RFC 4648 onto its section 4 alphabet keeps the length and maps character by character |
| `Notifications.NormalisedShape` | static/js/notifications.js:195-198 | the padded, re-alphabeted key has a length that is a multiple of 4, less than 4 above the input's; it holds no '-' or '_', keeps every other input character in place, and ends in '=' padding |
| `Notifications.AlphabetRoundTrip` | static/js/notifications.js:196-198 | on a key of the URL-safe alphabet the mapping to the standard alphabet is undone by its reverse |
| `Notifications.ToUint8Array` | static/js/notifications.js:201-205 | the array has one byte per decoded character, byte `i` being that character's code modulo 256 |
| `Notifications.UrlBase64ToUint8Array` | static/js/notifications.js:194-208 | the decoding fails exactly when `atob` rejects the normalised key; otherwise the array has the decoded length and byte `i` is the code of decoded character `i` |
| `Notifications.LatestFeed` | routes/alerts.py:176-187 | the feed has one record per latest alert |
| `Notifications.NewAlertsAsWrittenEmpty` | static/js/notifications.js:72-80 | the feed's records have no `status` key, so the filter keeps nothing and the counter is always given 0 |
| `Notifications.NewAlertsAsWrittenExample` | static/js/notifications.js:72 | an unread alert of today is in the feed, yet the filter drops it |
| `Notifications.NewAlertsAreRecentUnread` | static/js/notifications.js:66-80 | corrected, every unread alert of the caller from the last day is notified, one notification per latest alert, and the badge shows exactly when such an alert exists |
| `Notifications.AlertIconCases` | static/js/notifications.js:112-125 | the four priorities have distinct icons, each different from the default; any other value gets the default, as do the feed's records, which carry no priority |
| `Notifications.BadgeAfter` | static/js/notifications.js:128-138 | the badge is shown exactly when the count is positive, then with the count's digits; otherwise its text is kept |
| `Notifications.SendNotificationGuard` | static/js/notifications.js:141-156 | nothing is shown unless permission is 'granted'; the title is prefixed, the priority defaults to 'medium', and a missing or zero id is replaced by the current time |
| `DataUploader.Split` | static/js/data-uploader.js:144-168 | `split` gives at least one piece, no piece holds the separator, and joining the pieces with it gives the text back |
| `DataUploader.SplitCount` | static/js/data-uploader.js:144-145 | the number of pieces is one more than the number of separators |
| `DataUploader.TrimStart` | static/js/data-uploader.js:150-168 | the text without its leading spaces: a suffix whose first character, if any, is not a space, and everything cut is space |
| `DataUploader.TrimEnd` | static/js/data-uploader.js:150-168 | the text without its trailing spaces: a prefix whose last character, if any, is not a space, and everything cut is space |
| `DataUploader.Trim` | static/js/data-uploader.js:165 | `trim()` is empty exactly for a text of spaces only, and otherwise neither begins nor ends with a space |
| `DataUploader.EndingIsExtension` | static/js/data-uploader.js:72-80 | a name whose lower-cased form ends in '.csv' or '.json' has that extension after its last '.' |
| `DataUploader.ExtensionIsEnding` | utils.py:12-17 | an allowed extension after the last '.' makes the lower-cased name end in '.' and that extension |
| `DataUploader.FileNameChecksAgree` | static/js/data-uploader.js:72-80 | on the name alone the client's extension check accepts exactly the names the server's `allowed_file` accepts |
| `DataUploader.ValidateFileTypeIff` | static/js/data-uploader.js:70-85 | the client accepts a file exactly when its MIME type is `text/csv` or `application/json` or the server would accept its name, so every name the server accepts passes the client |
| `DataUploader.MimeTypeBypassesExtension` | static/js/data-uploader.js:70-77 | a '.txt' file announced as `text/csv` passes the client's check and is refused by the server's |
| `DataUploader.CsvWarningIff` | static/js/data-uploader.js:144-148 | the CSV preview is the warning exactly when the content holds no newline |
| `DataUploader.PreviewTableRows` | static/js/data-uploader.js:163-173 | a table holds at most five data rows: the trimmed cells of the non-blank lines among lines 1 to 5, in order |
| `DataUploader.PreviewTableFooter` | static/js/data-uploader.js:150-179 | the headers are the first line's trimmed cells; the footer appears exactly past six lines and then reports one row fewer than the lines |
| `DataUploader.PreviewCsvContent` | static/js/data-uploader.js:142-182 | the function with its row loop computes the preview `CsvPreviewOf` describes |
| `DataUploader.JsonPreviewOf` | static/js/data-uploader.js:185-221 | a parse error gives the error message and no other input does; an array gives the array preview |
| `DataUploader.JsonArrayPreview` | static/js/data-uploader.js:190-201 | an array preview shows the first min(n, 3) items, and reports the number of the others exactly when there are others |
| `DataUploader.ValidateDirectEntry` | static/js/data-uploader.js:229-279 | the handler shows one message per failed check, in order, and lets the entry through exactly when there is none |
| `DataUploader.HasResultMembers` | static/js/data-uploader.js:259-266 | an antibiotic result is present exactly when some select has a non-empty value |
| `DataUploader.EntryErrorsNone` | static/js/data-uploader.js:234-271 | the entry passes exactly when organization, pathogen and collection date are filled and some antibiotic has a result; each missing piece adds exactly one message |
| `DataUploader.AntibioticsForDefault` | static/js/data-uploader.js:305-316 | a sample type outside the five known ones gets the default five antibiotics; every list has four or five entries |
| `DataUploader.Slug` | static/js/data-uploader.js:322 | the replacement keeps the length, keeps each lower-case letter and digit, and turns every other character into '_' |
| `DataUploader.FieldIdShape` | static/js/data-uploader.js:322 | the field id is 'antibiotic_' followed by one character per character of the name: it is 11 longer, holds only [a-z0-9_], and keeps the name's lower-case letters and digits in place and lower-cases its capitals |
| `DataUpload.RowsUpToAre` | static/js/data_upload.js:29-38 | after the loop has seen `k` lines there are `k` rows, row `j` written for line `j` |
| `DataUpload.CsvTableShape` | static/js/data_upload.js:25-40 | the CSV preview is a table of one to five rows, as many as the content's first five lines: the first is the header row, the others data rows, and each row holds its line's comma-separated pieces; the lines shown begin the content |
| `DataUpload.BuildCsvPreview` | static/js/data_upload.js:22-42 | the function with its `forEach` builds the table `CsvTable` describes |
| `DataUpload.JsonPreview` | static/js/data_upload.js:45-55 | a parse error gives the error message and nothing else does; the text shown is at most the first 500 characters of the pretty-printed JSON, and the truncation note appears exactly when it is longer than 500 |
| `DataUpload.PreviewForCases` | static/js/data_upload.js:17-64 | a name ending in '.csv' gets the table, one ending in '.json' the JSON preview, any other the unsupported-format warning |
| `DataUpload.UploadPagesDisagreeOnCase` | static/js/data_upload.js:17 | this page reads the file name as given, while the uploader page lower-cases it: 'DATA.CSV' passes there and not here |
| `DataUpload.ChooseFileSubmit` | static/js/data_upload.js:10-66 | choosing an unsupported file disables submit and shows the warning; choosing a supported one enables submit; the facility and the loading indicator are untouched |
| `DataUpload.SelectFacilitySubmit` | static/js/data_upload.js:72-87 | after a facility change submit is enabled exactly when a file and a facility are selected, and only the facility and the button change |
| `DataUpload.FacilityReenablesUnsupported` | static/js/data_upload.js:63-87 | the facility rule does not look at the file's type: selecting a facility after an unsupported file enables submit again |
| `DataUpload.UploadPage.constructor` | static/js/data_upload.js:1-8 | the page starts with no file, no preview and no loading indicator |
| `DataUpload.UploadPage.OnFileChange` | static/js/data_upload.js:10-67 | the file handler changes the page's state as `ChooseFile` states |
| `DataUpload.UploadPage.OnFacilityChange` | static/js/data_upload.js:72-87 | the facility handler changes the page's state as `SelectFacility` states |
| `DataUpload.UploadPage.OnSubmit` | static/js/data_upload.js:90-103 | the submit handler shows the loading indicator and disables the button, and changes nothing else |
| `Maps.FilterResult` | static/js/maps.js:126-134 | 'all' keeps every location; every filter keeps locations of the map data in their order; a value other than 'all' keeps exactly the locations its callback accepts |
| `Maps.EnvironmentalFacilityPartition` | static/js/maps.js:129-130 | 'environmental' and 'facility' split the map data on `isEnvironmentalSample`: each location is kept by exactly one of them, and the two results together are as many as the locations |
| `Maps.RiskFilters` | static/js/maps.js:131-133 | 'high_risk' keeps exactly the locations of level 'High', not 'Very High'; 'very_high_risk' exactly those of level 'Very High'; a value the select does not offer keeps nothing |
| `Maps.MarkersAfterChangeAsWrittenEmpties` | static/js/maps.js:118-138 | as written, a change of the filter removes every marker and draws none back, so even 'all' over non-empty data leaves the map empty |
| `Maps.MarkersAfterChange` | static/js/maps.js:118-138 | as intended, a change leaves exactly the filtered locations: all of them for 'all', otherwise those its callback accepts, in map-data order |
| `Maps.PopupBreakdown` | static/js/maps.js:52-76 | a breakdown is listed exactly for a facility with a non-empty `pathogens` list; it shows the first min(n, 3) entries, and the '...' line exactly when there are more than 3 |
| `Maps.PopupShowsHighest` | static/js/maps.js:69-74 | on a list sorted by descending percentage no entry left out has a higher percentage than one shown |
| `Maps.Entries` | data_processing.py:330-338 | one breakdown entry per share, in order |
| `Maps.FiltersOnServerPoints` | data_processing.py:344-402 | on the server's points 'environmental' keeps the sample points, 'facility' the facility points, 'high_risk' the points classified High and 'very_high_risk' those classified Very High |
| `Maps.EntriesSorted` | data_processing.py:341 | the entries keep the order of descending shares |
| `Maps.FacilityPopupShowsHighest` | data_processing.py:330-341 | a facility's popup lists its pathogens of highest resistance, because the server sorts the breakdown by descending percentage |

## Left out

- Flask routing, templates, `flash` messages, redirects, sessions and flask_login: a route is modelled as the data it computes or the change it makes to the store, and 404 and 403 answers as outcomes.
- HTML markup built by the scripts: previews, popups, badges and indicators are modelled as the values they display.
- Views outside the modelled core:
  - in `routes.py`: `index`, `login`, `firebase_auth`, `logout`, `profile`, `update_profile`, `home`, `view_map`, `upload_data`, `view_alerts`, `admin_dashboard`, `edit_user`, `add_facility` and `treatment_guidance`, which duplicate or only render what the `routes/` blueprints do;
  - the GET form pages of `create_alert` and `add_facility`, and `routes/alerts.py` `treatment_guidance` (a rendered list of ten alerts);
  - `routes/dashboard.py` `map_view`, `analytics` and `predictions`; `routes/data.py` `upload` (file handling) and `get_latest_data`.
- The password login of `routes/auth.py` (lines 103-114), `logout`, `profile`, `update_profile`, `list_users`, `edit_user` and `verify_token`: they consist of werkzeug password checks, Firebase token checks and template rendering, all foreign code.
- Firebase and identity SDKs (`firebase_utils.py`, `firebase_admin.py`, the auth scripts): the verified token and the uid of a created Firebase account are parameters. A token lacking its uid or email is not modelled.
- `send_alert` and every e-mail, SMS and push delivery (utils.py:91-134), the service workers, background sync, the browser's `Notification` objects and timers, and the `fetch` calls: the delivery of each pending upload is a parameter.
- `localStorage` JSON encoding: the offline queue is a field holding the uploads. The sync's outer `catch` (status 'error'), the 'syncing' status shown while the requests run, and the toasts are not modelled.
- `enableOfflineMode`, `disableOfflineMode` and `updateOnlineStatus`: these only toggle DOM classes, button texts and a stored preference.
- `setupOfflineForm` (static/js/offline-manager.js:165-198): offline, it adds a submit listener that cancels the submission and calls `storeFormData`; in both modes it sets the button text and the message. The model treats a submission made while offline as one `StoreFormData` call.
- The submit listener is never removed (static/js/offline-manager.js:189-197): back online, a submission is still cancelled and queued, and each offline period adds one more listener, so a single submission is queued once per listener. The model keeps no listeners and does not capture either effect.
- `SyncPendingUploads` runs to completion in one step. In the script the sync reads the queue once (static/js/offline-manager.js:246) and, after awaiting each `fetch` (line 264), writes back the failures of that snapshot (line 279). A form stored by `storeFormData` during a fetch is therefore lost. The model does not interleave the two methods.
- The `FileReader`'s asynchronous load is taken as finished, and its `onerror` branch is not modelled. The page's elements are taken as present.
- `JSON.parse` and `JSON.stringify(…, null, 2)`, `atob` and `float` are parameters; their own behaviour is not modelled.
- Unicode case mapping and white space: `Lower` maps ASCII capitals only. `IsSpace` lists the ASCII white space, the no-break space, the byte-order mark and the line and paragraph separators, but not the other Unicode space separators.
- Floating point: percentages are exact. `round(x, 1)` in the map is kept exactly as tenths, and `round(x, 2)` on display values is not modelled.
- SQL row order: a GROUP BY, whose order SQL leaves unspecified, is modelled in order of first appearance. `order_by` ties keep store order. pandas' `groupby` in `predict_outbreak` is modelled with its default sorted order.
- Per-record exceptions inside ingestion other than a missing field (storage errors caught at data_processing.py:114-116), and the broad `except` blocks that log and return `0` or `[]` (utils.py:87-89, ml_models.py:116-118, data_processing.py:406-408) on errors that come from the database.
- The pandas machinery of `predict_outbreak`: the rows are a sequence of daily records. The unused `rolling_resistance` column is not computed, since nothing reads it.
- `np.random.uniform` in `predict_resistance_spread` is the parameter `increase`.
- The pagination of `alerts_view` (routes/alerts.py:43-44): the model gives the whole filtered list, which the page then slices.
- The pagination of `view_data` (routes/data.py:118-119, twenty reports per page): `DataRoutes.ViewData` gives the whole filtered list, newest first, which the page then slices.
- A facility's address and contact fields are not stored in the model. A missing facility type is stored as the empty string. Other fields not stored: the report's `patient_age`, `patient_gender` and `clinical_diagnosis` (data_processing.py:89-92), the profile's `mic_value` and `mutation_data` (data_processing.py:103-104), the same fields of the data-entry form (routes/data.py:218-221, 254-255), and the environmental sample's `notes` (data_processing.py:216).
- Clocks: `latest_alerts` (routes/alerts.py:169) and the dashboard's trends (routes/dashboard.py:96) take local `datetime.now()`, while stored report and alert times default to `datetime.utcnow` (models.py:99, 142). The model has a single clock `now`, so it does not capture the shift of the 24-hour window and of the monthly windows by the server's UTC offset.
- PlaceGroup, OutbreaksInGroupOrder: rows of one place group with the same date (two facilities of one city, since the daily query groups by facility coordinates at ml_models.py:41-42) keep their row order in the model's stable sort, while pandas' default quicksort in `sort_values('date')` (ml_models.py:68) does not promise an order for them, so which row `iloc[-1]` and `iloc[:-1]` name (ml_models.py:80-81) is then unspecified.
- CreateAlertSends: `severity` is read with `type=int` (routes/alerts.py:123), so a missing or non-numeric value is stored as NULL and counted by `get_alert_counts` under the key "None". The model's form always carries an integer severity, and a missing `alert_type`, stored as NULL, is a string in the model.
- FormSubmissionAdds: a missing `sample_type` of the data-entry form (routes/data.py:216) is stored as NULL; the model's form always carries a string.
- Concurrency: there is no locking in the code, so two requests racing to create the same catalogue entry are not modelled.
- `DataUploader.AntibioticsFor`: a sample type naming an inherited property of a JavaScript object, such as `constructor`, is not modelled.

## Findings

| source | as written | input that shows it | evidently intended | confidence | as-written member | corrected member |
|---|---|---|---|---|---|---|
| data_processing.py:157 | `Alert(**alert.__dict__)` copies the instance dictionary, which holds SQLAlchemy's `_sa_instance_state`. The declarative constructor rejects that key with a TypeError, and the surrounding `except` logs it, so no copy is ever stored. The same idiom is at data_processing.py:267 and routes.py:239 | a critical 'R' result with one doctor in the users table: no alert is added | one alert per recipient, equal to the template except for its user | high, not executed | `Models.FanOutAsWrittenLosesAlert` | `Models.FanOut` |
| routes.py:428-429 | the year of the window `i` months back is `now.year - ((now.month - i - 1) // 12)`, which adds a year when the month lies in the previous year | `now` = 15 March 2024, `i` = 3: the window runs from 1 December 2025 to 1 January 2024 and holds no report | `now.year + ((now.month - i - 1) // 12)`, giving 1 December 2023 | high, not executed | `Routes.TrendWindowAsWrittenExample` | `Routes.TrendWindowMembership` |
| routes/dashboard.py:105 | `datetime(current_date.year, current_date.month + 1, 1)` raises ValueError for December, and a 365-day walk always reaches a December before `now` | any `now`: the endpoint fails | the first of January of the next year | high, not executed | `Dashboard.ResistanceTrendsAsWrittenRaises` | `Dashboard.TrendStartsShape` |
| routes/dashboard.py:105-121 | `month_end` is midnight of the month's last day, and the filter is `report_date <= month_end`, so reports later that day fall in no month | a report at noon on 31 May 2023 | each month closed at its end, counting the whole last day | high, not executed | `Dashboard.LastDayGapExample` | `Dashboard.ResistanceTrendsCover` |
| static/js/notifications.js:72 | the check keeps alerts with `status === 'new'`, but the latest-alerts feed (routes/alerts.py:176-187) has no `status` key, so nothing is ever notified and the counter is always 0 | one unread alert created today | notify every alert of the feed, which already holds only the caller's unread alerts of the last day | high, not executed | `Notifications.NewAlertsAsWrittenExample` | `Notifications.NewAlertsAreRecentUnread` |
| static/js/maps.js:123-137 | the change handler of the filter select removes every `.marker` and computes `filteredData`, but the re-adding step is only a comment, so nothing is drawn again | any map data, filter changed to 'all': the map is left without markers | draw a marker for each location of `filteredData` | high, not executed | `Maps.MarkersAfterChangeAsWrittenEmpties` | `Maps.MarkersAfterChange` |
