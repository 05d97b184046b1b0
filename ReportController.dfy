/**
 * `ReportController.generatePatientReport`: turns the service's report map into
 * an HTTP answer, 404 for an error map and otherwise a six-key summary.
 */
module ReportController {
  import opened Wrappers
  import opened Calendar
  import opened ReportHelper
  import S = ReportService

  /**
   * The keys of the summary body: `reportId`, `issueDate`, `generatedReport`,
   * `patientId`, `patientName` and `email`.
   */
  datatype SummaryField = ReportId | IssueDate | GeneratedReport | PatientId | PatientName | Email

  type Summary = map<SummaryField, Option<string>>

  /** `ResponseEntity`: 404 without a body, or 200 with the summary. */
  datatype Response = NotFound | Ok(body: Summary)

  /** `Map.get`: null for a missing key. */
  function Get(m: S.ReportMap, f: S.Field): (v: Option<string>)
    ensures f in m ==> v == m[f]
    ensures f !in m ==> v.None?
  {
    if f in m then m[f] else None
  }

  /** A value as string concatenation renders it: null becomes the text `null`. */
  function ConcatText(v: Option<string>): (s: string)
    ensures v.None? ==> s == "null"
    ensures v.Some? ==> s == v.value
  {
    v.GetOr("null")
  }

  /** `name + " " + lastName` as read from the service map. */
  function PatientNameText(fullReport: S.ReportMap): string {
    ConcatText(Get(fullReport, S.Name)) + " " + ConcatText(Get(fullReport, S.LastName))
  }

  /** `generatePatientReport`, given what `makeReport(id)` returned. */
  function GeneratePatientReport(fullReport: S.ReportMap): (r: Response)
    ensures r.NotFound? <==> S.Error in fullReport
    ensures r.Ok? ==> r.body.Keys == {ReportId, IssueDate, GeneratedReport, PatientId, PatientName, Email}
    ensures r.Ok? ==> r.body[PatientId] == Get(fullReport, S.Id)
    ensures r.Ok? ==> r.body[PatientName] == Some(PatientNameText(fullReport))
    ensures r.Ok? ==> r.body[ReportId] == Get(fullReport, S.ReportId)
    ensures r.Ok? ==> r.body[IssueDate] == Get(fullReport, S.IssueDate)
    ensures r.Ok? ==> r.body[GeneratedReport] == Get(fullReport, S.GeneratedReport)
    ensures r.Ok? ==> r.body[Email] == Get(fullReport, S.Email)
  {
    if S.Error in fullReport then NotFound
    else
      var body := map[
        ReportId := Get(fullReport, S.ReportId),
        IssueDate := Get(fullReport, S.IssueDate),
        GeneratedReport := Get(fullReport, S.GeneratedReport),
        PatientId := Get(fullReport, S.Id),
        PatientName := Some(PatientNameText(fullReport)),
        Email := Get(fullReport, S.Email)];
      Ok(body)
  }

  /** A failed lookup, and the circuit breaker's fallback, both answer 404. */
  lemma ErrorReportIsNotFound(id: string)
    ensures GeneratePatientReport(S.ErrorReport(id)) == NotFound
  {
  }

  /**
   * A report the service built for a patient answers 200, and the summary
   * shows the patient's id, the name and last name (or their sentinels, never
   * the text `null`), the email (or its sentinel), and the report's id, issue
   * date and rendering.
   */
  lemma PatientReportSummary(p: S.Patient, template: string, today: Date, issueDate: string,
                             reportId: string, order: seq<S.Field>)
    requires S.ValidPatient(p) && S.IsIterationOrder(order)
    ensures
      var data := S.ReportData(p, today, issueDate, reportId);
      GeneratePatientReport(S.Report(p, template, today, issueDate, reportId, order)) ==
        Ok(map[
          ReportId := Some(reportId),
          IssueDate := Some(issueDate),
          GeneratedReport := Some(Rendered(Some(template), S.EntriesInOrder(data, order))),
          PatientId := p.id,
          PatientName := Some(S.TextOr(p.firstName, "Name Not specified") + " " +
                              S.TextOr(p.lastName, "LastName Not specified")),
          Email := Some(S.TextOr(p.email, "EmailNot specified"))])
  {
    S.ReportSummaryFields(p, template, today, issueDate, reportId, order);
    SummaryOfSuccessfulReport(S.Report(p, template, today, issueDate, reportId, order));
  }

  /** The summary of any report map without an error entry, read field by field. */
  lemma SummaryOfSuccessfulReport(full: S.ReportMap)
    requires S.Error !in full
    requires S.Name in full && full[S.Name].Some? && S.LastName in full && full[S.LastName].Some?
    ensures GeneratePatientReport(full) == Ok(map[
      ReportId := Get(full, S.ReportId),
      IssueDate := Get(full, S.IssueDate),
      GeneratedReport := Get(full, S.GeneratedReport),
      PatientId := Get(full, S.Id),
      PatientName := Some(full[S.Name].value + " " + full[S.LastName].value),
      Email := Get(full, S.Email)])
  {
  }
}
