# Patient report service: a verified model

This project models the core of the report microservice. That core is three things:

- `ReportServiceImpl.makeReport`: serves a patient from a process-wide cache, or fetches the patient once from the patient service and caches them. It then builds a report map of 28 fields, renders the template over that map and adds the result as `generatedReport`. When no patient can be had it answers an error map. A circuit breaker also falls back to that error map.
- `ReportHelper.processTemplate`: replaces every `{{key}}` of the template with the text of the key's value, one map entry after another.
- `ReportController.generatePatientReport`: answers 404 for an error map. Otherwise it answers 200 with a six-key summary.

Modules, one per concern:

- `Wrappers`: `Option`. `None` stands for Java's `null`.
- `Decimal`: fixed-width and canonical decimal digit strings, and `String.valueOf(int)`.
- `Strings`: `String.contains`, and `String.replace(CharSequence, CharSequence)` as a left-to-right, non-overlapping replacement.
- `Calendar`: the parts of `java.time` the age computation uses.
  - `LocalDate.toString`, including years beyond four digits and their `+`/`-` sign.
  - `LocalDate.parse` with `ISO_LOCAL_DATE`.
  - The years of `Period.between`, with Java's truncating division.
- `ReportHelper`: `processTemplate`. It is a `while` loop proved against the function `Rendered`.
- `ReportService`: the `Patient` record and the report map. It also holds the class `ReportServiceImpl`, whose field `patientCache` the methods update in place. A ghost counter `remoteCalls` counts requests to the patient service.
- `ReportController`: `generatePatientReport` as a function from the service's map to a response.

Modelling choices:

- A map value is kept as the text its `toString` gives, because that is all that reaches the template and the summary. `None` is a null value.
- The keys of the service's maps are always string literals of the source. They are the enumeration `Field`, and `Key` gives each key's text.
- `HashMap` iteration order is not specified by Java. The rendering therefore takes the order as an argument `order` that lists every report key exactly once. The properties are proved for every such order.
- These values are inputs of the model:
  - `LocalDate.now()`.
  - The texts of `LocalDateTime.now()` and `UUID.randomUUID()`.
  - The template text that `readTemplate` returns.
  - The outcome of the remote lookup (`FetchOutcome`).
- `patient.getBirthDate()` is a `LocalDate`. The code turns it into text, cuts the text at a `T`, and parses it again. Each step is modelled as written. `AgeOfLocalDate` proves that the parse always succeeds for a real date. So the `"Not specified"` age after a failed parse cannot happen for a stored patient, although the model keeps that path.
- The report keeps the source's quirks exactly:
  - The sentinels `EmailNot specified`, `PostalCodeNot specified` and `AllergiesNot specifieds`.
  - The lower-case `emergencyContactPhone 2 Not specified`.
  - `insuranceNumber` is taken from `registrationDate`.
  - `active` uses the bare sentinel `Not specified`.

## Model

| member | source | states |
|---|---|---|
| `Decimal.IntToStringValue` | src/main/java/com/ms_cels/report_ms/services/ReportServiceImpl.java:131 | the age text `String.valueOf(age)` is an optional minus sign followed by digits, and reading it back gives the age exactly |
| `Decimal.NatToDecimalCanonical` | src/main/java/com/ms_cels/report_ms/services/ReportServiceImpl.java:131 | the digits of a non-negative number are all digits, denote the number, and have no leading zero |
| `Decimal.FixedDigitsValue` | src/main/java/com/ms_cels/report_ms/services/ReportServiceImpl.java:124 | zero-padded digits of a number below `10^width` read back as that number, as in the month and day of `LocalDate.toString` |
| `Calendar.ParseIsoDate` | src/main/java/com/ms_cels/report_ms/services/ReportServiceImpl.java:129 | `LocalDate.parse` accepts only texts that denote a real calendar date, with a year within ±999999999 |
| `Calendar.ParseFormatted` | src/main/java/com/ms_cels/report_ms/services/ReportServiceImpl.java:124-129 | parsing the `toString` of any real date gives the same date back |
| `Calendar.FormattedHasNoT` | src/main/java/com/ms_cels/report_ms/services/ReportServiceImpl.java:126-128 | the text of a `LocalDate` never contains `T`, so it is never cut |
| `Calendar.TruncDiv` | src/main/java/com/ms_cels/report_ms/services/ReportServiceImpl.java:130 | the division in `Period.between` rounds toward zero: for non-negative months it is floor division, and for negative months a, the quotient q satisfies (q - 1)·b < a ≤ q·b, so q is a / b rounded up, toward zero |
| `Calendar.AgeYearsIsCompletedYears` | src/main/java/com/ms_cels/report_ms/services/ReportServiceImpl.java:130 | for a birth date not after today, the period's years are the birthdays passed, and they are non-negative |
| `Calendar.AgeYearsAntisymmetric` | src/main/java/com/ms_cels/report_ms/services/ReportServiceImpl.java:130 | swapping the two dates negates the years, so a birth date a full year or more after today gives a negative age, and less than a year ahead gives 0 |
| `Strings.ReplaceAllAbsent` | src/main/java/com/ms_cels/report_ms/helpers/ReportHelper.java:50 | `replace` leaves a text in which the pattern does not occur unchanged |
| `Strings.ReplaceAllLeftmost` | src/main/java/com/ms_cels/report_ms/helpers/ReportHelper.java:50 | `replace` keeps the text before the leftmost occurrence, substitutes that occurrence and continues after it |
| `Strings.ReplaceAllSplit` | src/main/java/com/ms_cels/report_ms/helpers/ReportHelper.java:50 | when no occurrence straddles a cut, `replace` on the whole text is `replace` on the two pieces, concatenated |
| `Strings.ReplaceAllKeeps` | src/main/java/com/ms_cels/report_ms/helpers/ReportHelper.java:50 | a piece of the text that no occurrence overlaps passes through `replace` intact |
| `ReportHelper.Rendered` | src/main/java/com/ms_cels/report_ms/helpers/ReportHelper.java:42-44 | a null or empty template gives `No se pudo cargar la plantilla`; with no entries, a non-empty template comes back as it is |
| `ReportHelper.ProcessTemplate` | src/main/java/com/ms_cels/report_ms/helpers/ReportHelper.java:41-54 | the loop's result is the template with the entries' replacements applied one after another in iteration order, a null value as `No especificado` |
| `ReportHelper.ApplyEntriesAppend` | src/main/java/com/ms_cels/report_ms/helpers/ReportHelper.java:47-51 | applying entries in two parts is applying the first part and then the second |
| `ReportHelper.ApplyEntriesNoPlaceholder` | src/main/java/com/ms_cels/report_ms/helpers/ReportHelper.java:47-51 | a text holding no entry's placeholder is not changed by any entry |
| `ReportHelper.NoDoubleBraceUnchanged` | src/main/java/com/ms_cels/report_ms/helpers/ReportHelper.java:47-51 | a template without `{{` (single-brace `{key}` included) is returned unchanged whatever the data |
| `ReportHelper.PlaceholdersDisjoint` | src/main/java/com/ms_cels/report_ms/helpers/ReportHelper.java:48 | placeholders of two different brace-free keys never overlap in any text |
| `ReportHelper.AbsentPlaceholderSurvives` | src/main/java/com/ms_cels/report_ms/helpers/ReportHelper.java:47-51 | every occurrence of the placeholder of a brace-free key that has no entry stays in place, whatever the values insert: rendering `x + {{k}} + y` gives the rendering of `x`, then `{{k}}`, then the rendering of `y` |
| `ReportHelper.LaterEntryRewritesEarlierValue` | src/main/java/com/ms_cels/report_ms/helpers/ReportHelper.java:47-51 | a value may insert a placeholder that a later entry fills, so the iteration order changes the result |
| `ReportService.FetchPatientWithTimeout` | src/main/java/com/ms_cels/report_ms/services/ReportServiceImpl.java:78-97 | only a found patient is returned; not found, a timeout and any other failure all give null |
| `ReportService.ErrorReport` | src/main/java/com/ms_cels/report_ms/services/ReportServiceImpl.java:106-110 | the error map has the single key `error`, with the text `No patient with ID was found: ` followed by the id |
| `ReportService.DatePart` | src/main/java/com/ms_cels/report_ms/services/ReportServiceImpl.java:126-128 | the date part is the longest prefix without `T`. A text made only of `T`s gives none, because `split` then yields no element and indexing it throws |
| `ReportService.FieldValue` | src/main/java/com/ms_cels/report_ms/services/ReportServiceImpl.java:115-164 | every report field holds text. Only `id` may be null |
| `ReportService.ReportData` | src/main/java/com/ms_cels/report_ms/services/ReportServiceImpl.java:113-164 | `reportData` has exactly the 28 report keys, each holding its field's value |
| `ReportService.Report` | src/main/java/com/ms_cels/report_ms/services/ReportServiceImpl.java:166-176 | the result has the report keys plus `generatedReport` and never the key `error` |
| `ReportService.AgeOfLocalDate` | src/main/java/com/ms_cels/report_ms/services/ReportServiceImpl.java:121-131 | for a stored birth date the age is always computed: its text is `String.valueOf` of the period's years |
| `ReportService.AgeFieldCountsBirthdays` | src/main/java/com/ms_cels/report_ms/services/ReportServiceImpl.java:121-138 | for a birth date on or before today, the `age` field is the number of birthdays passed, which is non-negative |
| `ReportService.AgeFromTextFails` | src/main/java/com/ms_cels/report_ms/services/ReportServiceImpl.java:132-135 | a date text that cannot be cut or parsed gives the age `Not specified` |
| `ReportService.AgeFromDateTimeText` | src/main/java/com/ms_cels/report_ms/services/ReportServiceImpl.java:124-131 | a date-time text is cut at its `T`, and its date part gives the age of that date |
| `ReportService.KeyBraceFree` | src/main/java/com/ms_cels/report_ms/services/ReportServiceImpl.java:115-172 | no key of the service's maps contains a brace, so none can open or close a placeholder |
| `ReportService.UnknownPlaceholderSurvives` | src/main/java/com/ms_cels/report_ms/services/ReportServiceImpl.java:166-172 | for a template `x + {{k}} + y` whose `k` is not a report key, `generatedReport` is the rendering of `x`, then `{{k}}` untouched, then the rendering of `y`, for every patient and every iteration order |
| `ReportService.ReportServiceImpl.constructor` | src/main/java/com/ms_cels/report_ms/services/ReportServiceImpl.java:35 | the cache starts empty, with no remote request made |
| `ReportService.ReportServiceImpl.CreateReportFromPatient` | src/main/java/com/ms_cels/report_ms/services/ReportServiceImpl.java:113-176 | the result is `reportData` plus `generatedReport`, which is the template rendered over `reportData` in iteration order |
| `ReportService.ReportServiceImpl.MakeReport` | src/main/java/com/ms_cels/report_ms/services/ReportServiceImpl.java:45-75 | a cached id is reported without a remote request and the cache is unchanged. Otherwise exactly one request is made: a patient found is cached under the id and reported, and no patient gives the error map with the cache unchanged |
| `ReportService.ReportServiceImpl.FallbackMakeReport` | src/main/java/com/ms_cels/report_ms/services/ReportServiceImpl.java:99-103 | the fallback answers the same error map as a failed lookup |
| `ReportService.ReportServiceImpl.RefreshPatientCache` | src/main/java/com/ms_cels/report_ms/services/ReportServiceImpl.java:191-194 | exactly that id is removed from the cache, and every other entry is kept |
| `ReportService.RepeatedRequest` | src/main/java/com/ms_cels/report_ms/services/ReportServiceImpl.java:53-63 | once a request has produced a report, the same request again makes no remote request at all and, for the same clock and UUID values, gives the same report |
| `ReportController.Get` | src/main/java/com/ms_cels/report_ms/controllers/ReportController.java:46-51 | `Map.get` gives the stored value, or null for a missing key |
| `ReportController.ConcatText` | src/main/java/com/ms_cels/report_ms/controllers/ReportController.java:50 | string concatenation renders null as the text `null` |
| `ReportController.GeneratePatientReport` | src/main/java/com/ms_cels/report_ms/controllers/ReportController.java:36-54 | 404 exactly when the map holds `error`. Otherwise 200 with exactly six keys: `patientId` is the map's `id`, `patientName` is `name + " " + lastName`, and `reportId`, `issueDate`, `generatedReport` and `email` are copied |
| `ReportController.ErrorReportIsNotFound` | src/main/java/com/ms_cels/report_ms/controllers/ReportController.java:40-42 | the error map of a failed lookup or of the fallback always answers 404 |
| `ReportController.PatientReportSummary` | src/main/java/com/ms_cels/report_ms/controllers/ReportController.java:45-53 | a report built for a patient always answers 200. Its summary shows the patient's id, the name and last name (or their sentinels, never `null`), the email or its sentinel, and the report's id, issue date and rendering |

## Left out

- `readTemplate` reads a class-path file, which is I/O. The template text is an input, and any text is allowed, including the error text `readTemplate` returns when reading fails. `makeReport` reads the template once more at its start and discards it; that read has no effect on the result and is not modelled.
- The circuit breaker's state machine (failure rate, open and half-open states) is not modelled. Only its effect is: when it calls the fallback, the answer is `FallbackMakeReport`'s error map.
- The 10-second timeout, the asynchronous task and the concurrent access to the `ConcurrentHashMap` cache are not modelled. The fetch outcome is an input, and each method runs alone.
- The cache is a `static` field in the source, shared by all instances. Here it is a field of the one `ReportServiceImpl` object.
- The HTTP lookup behind `DirectPatientRepository` and the Eureka client are outside the model. Only the four outcomes of the lookup are modelled.
- Logging is not modelled.
- `saveReport` and `deleteReport` only log or print, so they are not modelled.
- `home` and `test` return constant texts, so they are not modelled.
- `generatePatientReportDetails` calls a `hexagonalReportService` bean whose code is not part of this model.
- `ReportController.GeneratePatientReport` is modelled over any map it receives. Its bean `hexagonalReportService` is not part of this model. The lemmas that connect it to the service use the maps `ReportServiceImpl` builds.
- `Patient.dateBirth` is never read by the report, so it is not modelled.
- The rendering is proved for every iteration order that lists each key once. Which order a `HashMap` actually uses is not modelled.
- `ReportService.ReportServiceImpl.CreateReportFromPatient`: `reportData` is built in one step as the map `ReportData`, not by 28 successive `put`s into a fresh local map. The resulting map is the same.
- `Calendar.AgeYears`: the age is an unbounded integer. For years within ±999999999 it always fits Java's `int`, so no overflow is modelled.
