/**
 * `ReportServiceImpl`: serves a patient from the process-wide cache or fetches it
 * once, builds the report field map, renders the template and answers an error
 * map when no patient can be had.
 */
module ReportService {
  import opened Wrappers
  import opened Decimal
  import opened Calendar
  import opened Strings
  import opened ReportHelper

  /**
   * `models.Patient`. `None` is a null field. The id (a UUID) and the two
   * timestamps (`LocalDateTime`) are kept as the text `toString` gives them.
   */
  datatype Patient = Patient(
    id: Option<string>,
    firstName: Option<string>,
    lastName: Option<string>,
    birthDate: Option<Date>,
    gender: Option<string>,
    bloodType: Option<string>,
    phone: Option<string>,
    email: Option<string>,
    address: Option<string>,
    city: Option<string>,
    country: Option<string>,
    postalCode: Option<string>,
    emergencyContactName: Option<string>,
    emergencyContactPhone: Option<string>,
    emergencyContactName2: Option<string>,
    emergencyContactName3: Option<string>,
    emergencyContactPhone2: Option<string>,
    emergencyContactPhone3: Option<string>,
    medicalHistory: Option<string>,
    allergies: Option<string>,
    insuranceProvider: Option<string>,
    registrationDate: Option<string>,
    updatedAt: Option<string>,
    status: Option<bool>,
    active: Option<bool>)

  /** A `LocalDate` is always a real calendar date. */
  predicate ValidPatient(p: Patient) {
    p.birthDate.Some? ==> ValidDate(p.birthDate.value)
  }

  /**
   * What the direct patient lookup ends in: a patient, a 404 from the patient
   * service, no answer within 10 seconds, or any other failure.
   */
  datatype FetchOutcome = Found(patient: Patient) | Absent | TimedOut | Failed

  /** `fetchPatientWithTimeout`: every way of not getting a patient becomes null. */
  function FetchPatientWithTimeout(outcome: FetchOutcome): (r: Option<Patient>)
    ensures r.Some? <==> outcome.Found?
    ensures r.Some? ==> r.value == outcome.patient
  {
    match outcome
    case Found(p) => Some(p)
    case _ => None
  }

  /**
   * The keys the service puts into its maps. Every key in the source is one of
   * these string literals; `Key` gives its text.
   */
  datatype Field =
    | Id | Name | LastName | BirthDate | Age | Gender | BloodType | Phone | Email
    | Address | City | Country | PostalCode | EmergencyContactName | EmergencyContactPhone
    | EmergencyContactName2 | EmergencyContactPhone2 | EmergencyContactName3
    | EmergencyContactPhone3 | MedicalHistory | Allergies | InsuranceProvider
    | InsuranceNumber | UpdatedAt | Status | Active | IssueDate | ReportId
    | GeneratedReport | Error

  function Key(f: Field): string {
    match f
    case Id => "id"
    case Name => "name"
    case LastName => "lastName"
    case BirthDate => "birthDate"
    case Age => "age"
    case Gender => "gender"
    case BloodType => "bloodType"
    case Phone => "phone"
    case Email => "email"
    case Address => "address"
    case City => "city"
    case Country => "country"
    case PostalCode => "postalCode"
    case EmergencyContactName => "emergencyContactName"
    case EmergencyContactPhone => "emergencyContactPhone"
    case EmergencyContactName2 => "emergencyContactName2"
    case EmergencyContactPhone2 => "emergencyContactPhone2"
    case EmergencyContactName3 => "emergencyContactName3"
    case EmergencyContactPhone3 => "emergencyContactPhone3"
    case MedicalHistory => "medicalHistory"
    case Allergies => "allergies"
    case InsuranceProvider => "insuranceProvider"
    case InsuranceNumber => "insuranceNumber"
    case UpdatedAt => "updatedAt"
    case Status => "status"
    case Active => "active"
    case IssueDate => "issueDate"
    case ReportId => "reportId"
    case GeneratedReport => "generatedReport"
    case Error => "error"
  }

  /** The service's `Map<String, Object>`: each value as its `toString` text, `None` for null. */
  type ReportMap = map<Field, Option<string>>

  const AgeNotSpecified: string := "Not specified"

  /** `createErrorReport(id)`. */
  function ErrorReport(id: string): (r: ReportMap)
    ensures r.Keys == {Error}
    ensures r[Error] == Some("No patient with ID was found: " + id)
  {
    map[Error := Some("No patient with ID was found: " + id)]
  }

  /** `field != null ? field : sentinel` for a text field. */
  function TextOr(field: Option<string>, sentinel: string): string {
    field.GetOr(sentinel)
  }

  /** `field != null ? field : sentinel` for a `Boolean` field, as text. */
  function BoolOr(field: Option<bool>, sentinel: string): string {
    match field
    case Some(b) => if b then "true" else "false"
    case None => sentinel
  }

  /** Index of the first `c` in `s`. */
  function FirstIndexOf(s: string, c: char): (i: nat)
    requires c in s
    ensures i < |s| && s[i] == c && c !in s[..i]
  {
    if s[0] == c then 0
    else
      var i := 1 + FirstIndexOf(s[1..], c);
      assert s[..i] == [s[0]] + s[1..][..i - 1];
      i
  }

  /**
   * `text.contains("T") ? text.split("T")[0] : text`. `split` drops trailing empty
   * strings, so a text made only of `T`s splits into nothing and indexing it
   * throws: `None`.
   */
  function DatePart(text: string): (r: Option<string>)
    ensures r.None? <==> |text| > 0 && forall i :: 0 <= i < |text| ==> text[i] == 'T'
    ensures r.Some? ==> 'T' !in r.value && r.value <= text
    ensures r.Some? && |r.value| < |text| ==> text[|r.value|] == 'T'
  {
    if 'T' !in text then
      assert |text| > 0 ==> text[0] in text;
      Some(text)
    else if forall i :: 0 <= i < |text| ==> text[i] == 'T' then None
    else Some(text[..FirstIndexOf(text, 'T')])
  }

  /**
   * The age as text: the date part of the birth date's text, parsed as an ISO
   * date, gives the period's years; a failure to cut or parse gives the sentinel.
   */
  function AgeFromText(text: string, today: Date): string {
    match DatePart(text)
    case None => AgeNotSpecified
    case Some(part) =>
      match ParseIsoDate(part)
      case None => AgeNotSpecified
      case Some(birth) => IntToString(AgeYears(birth, today))
  }

  /** The `age` field: the sentinel for a null birth date, else the age from its text. */
  function AgeField(birthDate: Option<Date>, today: Date): string
    requires birthDate.Some? ==> ValidDate(birthDate.value)
  {
    match birthDate
    case None => AgeNotSpecified
    case Some(d) => AgeFromText(FormatIsoDate(d), today)
  }

  /** The `birthDate` field: the date's `toString`, or its sentinel. */
  function BirthDateText(birthDate: Option<Date>): string
    requires birthDate.Some? ==> ValidDate(birthDate.value)
  {
    match birthDate
    case None => "BirthDate Not specified"
    case Some(d) => FormatIsoDate(d)
  }

  /** The keys `createReportFromPatient` puts into `reportData`. */
  predicate IsReportKey(f: Field) {
    !f.GeneratedReport? && !f.Error?
  }

  /**
   * The value `createReportFromPatient` puts under each key of `reportData`:
   * the patient's value or, when that is null, the key's own fixed sentinel;
   * only `id` may hold null.
   */
  function FieldValue(p: Patient, today: Date, issueDate: string, reportId: string, f: Field): (v: Option<string>)
    requires ValidPatient(p) && IsReportKey(f)
    ensures v.None? ==> f == Id
  {
    match f
    case Id => p.id
    case Name => Some(TextOr(p.firstName, "Name Not specified"))
    case LastName => Some(TextOr(p.lastName, "LastName Not specified"))
    case BirthDate => Some(BirthDateText(p.birthDate))
    case Age => Some(AgeField(p.birthDate, today))
    case Gender => Some(TextOr(p.gender, "Gender Not specified"))
    case BloodType => Some(TextOr(p.bloodType, "BloodType Not specified"))
    case Phone => Some(TextOr(p.phone, "Phone Not specified"))
    case Email => Some(TextOr(p.email, "EmailNot specified"))
    case Address => Some(TextOr(p.address, "Address Not specified"))
    case City => Some(TextOr(p.city, "City Not specified"))
    case Country => Some(TextOr(p.country, "Country Not specified"))
    case PostalCode => Some(TextOr(p.postalCode, "PostalCodeNot specified"))
    case EmergencyContactName => Some(TextOr(p.emergencyContactName, "EmergencyContactName Not specified"))
    case EmergencyContactPhone => Some(TextOr(p.emergencyContactPhone, "EmergencyContactPhone Not specified"))
    case EmergencyContactName2 => Some(TextOr(p.emergencyContactName2, "EmergencyContactName 2 Not specified"))
    case EmergencyContactPhone2 => Some(TextOr(p.emergencyContactPhone2, "emergencyContactPhone 2 Not specified"))
    case EmergencyContactName3 => Some(TextOr(p.emergencyContactName3, "EmergencyContactName 3 Not specified"))
    case EmergencyContactPhone3 => Some(TextOr(p.emergencyContactPhone3, "EmergencyContactPhone 3 Not specified"))
    case MedicalHistory => Some(TextOr(p.medicalHistory, "MedicalHistory Not specified"))
    case Allergies => Some(TextOr(p.allergies, "AllergiesNot specifieds"))
    case InsuranceProvider => Some(TextOr(p.insuranceProvider, "InsuranceProvider Not specified"))
    case InsuranceNumber => Some(TextOr(p.registrationDate, "InsuranceNumber Not specified"))
    case UpdatedAt => Some(TextOr(p.updatedAt, "UpdatedAt Not specified"))
    case Status => Some(BoolOr(p.status, "Status Not specified"))
    case Active => Some(BoolOr(p.active, "Not specified"))
    case IssueDate => Some(issueDate)
    case ReportId => Some(reportId)
  }

  /** `reportData`: every report key with its value. */
  function ReportData(p: Patient, today: Date, issueDate: string, reportId: string): (m: ReportMap)
    requires ValidPatient(p)
    ensures forall f :: f in m <==> IsReportKey(f)
    ensures forall f :: f in m ==> m[f] == FieldValue(p, today, issueDate, reportId, f)
  {
    map f: Field | IsReportKey(f) :: FieldValue(p, today, issueDate, reportId, f)
  }

  /** `order` lists every report key exactly once, as iterating a `HashMap` does. */
  predicate IsIterationOrder(order: seq<Field>) {
    && (forall i :: 0 <= i < |order| ==> IsReportKey(order[i]))
    && (forall f :: IsReportKey(f) ==> f in order)
    && (forall i, j :: 0 <= i < j < |order| ==> order[i] != order[j])
  }

  /** The map's entries in the given iteration order. */
  function EntriesInOrder(m: ReportMap, order: seq<Field>): (es: seq<Entry>)
    requires forall i :: 0 <= i < |order| ==> order[i] in m
    ensures |es| == |order|
    ensures forall i :: 0 <= i < |order| ==> es[i] == (Key(order[i]), m[order[i]])
  {
    seq(|order|, i requires 0 <= i < |order| => (Key(order[i]), m[order[i]]))
  }

  /** The map `createReportFromPatient` returns: `reportData` plus the rendered template. */
  function Report(p: Patient, template: string, today: Date, issueDate: string, reportId: string,
                  order: seq<Field>): (r: ReportMap)
    requires ValidPatient(p) && IsIterationOrder(order)
    ensures forall f :: f in r <==> IsReportKey(f) || f == GeneratedReport
  {
    var data := ReportData(p, today, issueDate, reportId);
    data[GeneratedReport := Some(Rendered(Some(template), EntriesInOrder(data, order)))]
  }

  /** For a real `LocalDate` the date part always parses, so the age is always computed. */
  lemma AgeOfLocalDate(d: Date, today: Date)
    requires ValidDate(d)
    ensures AgeField(Some(d), today) == IntToString(AgeYears(d, today))
  {
    FormattedHasNoT(d);
    ParseFormatted(d);
  }

  /** The `age` field of a patient born on or before today is the number of birthdays passed. */
  lemma AgeFieldCountsBirthdays(d: Date, today: Date)
    requires ValidDate(d) && ValidDate(today) && !Before(today, d)
    ensures AgeField(Some(d), today) == IntToString(CompletedYears(d, today))
    ensures CompletedYears(d, today) >= 0
  {
    AgeOfLocalDate(d, today);
    AgeYearsIsCompletedYears(d, today);
  }

  /** A birth date text that is not an ISO date before its `T`, if any, gives the sentinel. */
  lemma AgeFromTextFails(text: string, today: Date)
    requires DatePart(text).None? || ParseIsoDate(DatePart(text).value).None?
    ensures AgeFromText(text, today) == AgeNotSpecified
  {
  }

  /** A `LocalDateTime` text is cut at its `T` and gives the age of its date. */
  lemma AgeFromDateTimeText(d: Date, time: string, today: Date)
    requires ValidDate(d)
    ensures AgeFromText(FormatIsoDate(d) + "T" + time, today) == IntToString(AgeYears(d, today))
  {
    var date := FormatIsoDate(d);
    var text := date + "T" + time;
    FormattedHasNoT(d);
    assert text[|date|] == 'T' && text[..|date|] == date;
    assert 'T' in text;
    assert text[0] != 'T' by {
      assert date[0] == text[0];
      assert date[0] in date;
    }
    assert DatePart(text) == Some(date);
    ParseFormatted(d);
  }

  /** The fields of `reportData` that the summary reads. */
  lemma ReportDataSummaryFields(p: Patient, today: Date, issueDate: string, reportId: string)
    requires ValidPatient(p)
    ensures
      var data := ReportData(p, today, issueDate, reportId);
      && data[Id] == p.id
      && data[Name] == Some(TextOr(p.firstName, "Name Not specified"))
      && data[LastName] == Some(TextOr(p.lastName, "LastName Not specified"))
      && data[Email] == Some(TextOr(p.email, "EmailNot specified"))
      && data[IssueDate] == Some(issueDate)
      && data[ReportId] == Some(reportId)
  {
  }

  /** The fields of a patient's report that the summary reads. */
  lemma ReportSummaryFields(p: Patient, template: string, today: Date, issueDate: string,
                            reportId: string, order: seq<Field>)
    requires ValidPatient(p) && IsIterationOrder(order)
    ensures
      var data := ReportData(p, today, issueDate, reportId);
      var r := Report(p, template, today, issueDate, reportId, order);
      && Error !in r
      && r[Id] == p.id
      && r[Name] == Some(TextOr(p.firstName, "Name Not specified"))
      && r[LastName] == Some(TextOr(p.lastName, "LastName Not specified"))
      && r[Email] == Some(TextOr(p.email, "EmailNot specified"))
      && r[IssueDate] == Some(issueDate)
      && r[ReportId] == Some(reportId)
      && r[GeneratedReport] == Some(Rendered(Some(template), EntriesInOrder(data, order)))
  {
    ReportDataSummaryFields(p, today, issueDate, reportId);
  }

  /** No report key can open or close a placeholder. */
  lemma KeyBraceFree(f: Field)
    ensures BraceFree(Key(f))
  {
    if f.Id? || f.Name? || f.LastName? || f.BirthDate? || f.Age? {
      KeyBraceFreeA(f);
    } else if f.Gender? || f.BloodType? || f.Phone? || f.Email? || f.Address? {
      KeyBraceFreeB(f);
    } else if f.City? || f.Country? || f.PostalCode? || f.EmergencyContactName? || f.EmergencyContactPhone? {
      KeyBraceFreeC(f);
    } else if f.EmergencyContactName2? || f.EmergencyContactPhone2? || f.EmergencyContactName3? || f.EmergencyContactPhone3? || f.MedicalHistory? {
      KeyBraceFreeD(f);
    } else if f.Allergies? || f.InsuranceProvider? || f.InsuranceNumber? || f.UpdatedAt? || f.Status? {
      KeyBraceFreeE(f);
    } else {
      KeyBraceFreeF(f);
    }
  }

  // The key literals are checked five constructors at a time, because one
  // lemma over all thirty constructors is too much work for the solver.

  lemma KeyBraceFreeA(f: Field)
    requires f.Id? || f.Name? || f.LastName? || f.BirthDate? || f.Age?
    ensures BraceFree(Key(f))
  {
  }

  lemma KeyBraceFreeB(f: Field)
    requires f.Gender? || f.BloodType? || f.Phone? || f.Email? || f.Address?
    ensures BraceFree(Key(f))
  {
  }

  lemma KeyBraceFreeC(f: Field)
    requires f.City? || f.Country? || f.PostalCode? || f.EmergencyContactName? || f.EmergencyContactPhone?
    ensures BraceFree(Key(f))
  {
  }

  lemma KeyBraceFreeD(f: Field)
    requires f.EmergencyContactName2? || f.EmergencyContactPhone2? || f.EmergencyContactName3? || f.EmergencyContactPhone3? || f.MedicalHistory?
    ensures BraceFree(Key(f))
  {
  }

  lemma KeyBraceFreeE(f: Field)
    requires f.Allergies? || f.InsuranceProvider? || f.InsuranceNumber? || f.UpdatedAt? || f.Status?
    ensures BraceFree(Key(f))
  {
  }

  lemma KeyBraceFreeF(f: Field)
    requires f.Active? || f.IssueDate? || f.ReportId? || f.GeneratedReport? || f.Error?
    ensures BraceFree(Key(f))
  {
  }

  /**
   * A placeholder in the template whose key is not a report key (a typo, or
   * `{{generatedReport}}`) stays in place in the rendered report, whatever the
   * patient's values and the iteration order: the text on each side of it is
   * rendered on its own.
   */
  lemma UnknownPlaceholderSurvives(p: Patient, template: string, today: Date, issueDate: string,
                                   reportId: string, order: seq<Field>, k: string, x: string, y: string)
    requires ValidPatient(p) && IsIterationOrder(order)
    requires BraceFree(k) && forall f :: IsReportKey(f) ==> Key(f) != k
    requires template == x + Placeholder(k) + y
    ensures
      var entries := EntriesInOrder(ReportData(p, today, issueDate, reportId), order);
      Report(p, template, today, issueDate, reportId, order)[GeneratedReport] ==
        Some(ApplyEntries(x, entries) + Placeholder(k) + ApplyEntries(y, entries))
  {
    var data := ReportData(p, today, issueDate, reportId);
    var entries := EntriesInOrder(data, order);
    forall i | 0 <= i < |entries| ensures BraceFree(entries[i].0) && entries[i].0 != k {
      KeyBraceFree(order[i]);
    }
    AbsentPlaceholderSurvives(x, y, entries, k);
    assert template != "";
  }

  class ReportServiceImpl {
    /** The static `patientCache`: patients fetched so far, by id. */
    var patientCache: map<string, Patient>
    /** How many times the remote patient service has been asked. */
    ghost var remoteCalls: nat

    ghost predicate Valid()
      reads this
    {
      forall id :: id in patientCache ==> ValidPatient(patientCache[id])
    }

    constructor ()
      ensures Valid() && patientCache == map[] && remoteCalls == 0
    {
      patientCache := map[];
      remoteCalls := 0;
    }

    /**
     * `createReportFromPatient`: `reportData` filled with every field, the
     * template rendered over its entries in iteration order, and
     * `generatedReport` added.
     */
    method CreateReportFromPatient(p: Patient, template: string, today: Date, issueDate: string,
                                   reportId: string, order: seq<Field>) returns (result: ReportMap)
      requires ValidPatient(p) && IsIterationOrder(order)
      ensures result == Report(p, template, today, issueDate, reportId, order)
    {
      var reportData := ReportData(p, today, issueDate, reportId);

      var processedReport := ProcessTemplate(Some(template), EntriesInOrder(reportData, order));
      result := reportData[GeneratedReport := Some(processedReport)];
    }

    /**
     * `makeReport(id)`: a cached patient is reported without asking the patient
     * service; otherwise the service is asked once, a patient it returns is
     * cached and reported, and when none comes back the error map is returned
     * and the cache is left alone.
     */
    method MakeReport(id: string, fetch: FetchOutcome, template: string, today: Date, issueDate: string,
                      reportId: string, order: seq<Field>) returns (report: ReportMap)
      requires Valid() && IsIterationOrder(order)
      requires fetch.Found? ==> ValidPatient(fetch.patient)
      modifies this
      ensures Valid()
      ensures id in old(patientCache) ==>
        && patientCache == old(patientCache) && remoteCalls == old(remoteCalls)
        && report == Report(old(patientCache)[id], template, today, issueDate, reportId, order)
      ensures id !in old(patientCache) ==> remoteCalls == old(remoteCalls) + 1
      ensures id !in old(patientCache) && fetch.Found? ==>
        && patientCache == old(patientCache)[id := fetch.patient]
        && report == Report(fetch.patient, template, today, issueDate, reportId, order)
      ensures id !in old(patientCache) && !fetch.Found? ==>
        patientCache == old(patientCache) && report == ErrorReport(id)
    {
      var patient: Option<Patient> := if id in patientCache then Some(patientCache[id]) else None;
      if patient.None? {
        patient := FetchPatientWithTimeout(fetch);
        remoteCalls := remoteCalls + 1;
        if patient.Some? {
          patientCache := patientCache[id := patient.value];
        } else {
          return ErrorReport(id);
        }
      }
      report := CreateReportFromPatient(patient.value, template, today, issueDate, reportId, order);
    }

    /** `fallbackMakeReport(id, throwable)`: the same error map as a failed lookup. */
    method FallbackMakeReport(id: string) returns (report: ReportMap)
      ensures report == ErrorReport(id)
    {
      report := ErrorReport(id);
    }

    /** `refreshPatientCache(id)`: forget exactly this patient. */
    method RefreshPatientCache(id: string)
      requires Valid()
      modifies this
      ensures Valid()
      ensures patientCache == old(patientCache) - {id}
      ensures remoteCalls == old(remoteCalls)
    {
      patientCache := patientCache - {id};
    }
  }

  /**
   * Asking twice for the same id with the same inputs: once the first request
   * has produced a report, the second one asks the patient service nothing and
   * produces the same report.
   */
  method RepeatedRequest(service: ReportServiceImpl, id: string, fetch1: FetchOutcome, fetch2: FetchOutcome,
                         template: string, today: Date, issueDate: string, reportId: string,
                         order: seq<Field>) returns (first: ReportMap, second: ReportMap, ghost between: nat)
    requires service.Valid() && IsIterationOrder(order)
    requires fetch1.Found? ==> ValidPatient(fetch1.patient)
    requires fetch2.Found? ==> ValidPatient(fetch2.patient)
    modifies service
    ensures Error !in first ==> second == first && service.remoteCalls == between
  {
    first := service.MakeReport(id, fetch1, template, today, issueDate, reportId, order);
    between := service.remoteCalls;
    second := service.MakeReport(id, fetch2, template, today, issueDate, reportId, order);
  }
}
