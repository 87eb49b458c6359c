/** TaskExecutor.execute: routes a task type to its handler. Each handler
    only logs and returns a fixed JSON text; the logging is not modelled. */
module TaskExecution {
  import opened Common

  const EMAIL_SEND := "EMAIL_SEND"
  const PDF_GENERATE := "PDF_GENERATE"
  const DATA_EXPORT := "DATA_EXPORT"
  const REPORT_BUILD := "REPORT_BUILD"

  /** The task types with a handler (exact, case-sensitive names). */
  predicate Known(taskType: string) {
    taskType == EMAIL_SEND || taskType == PDF_GENERATE || taskType == DATA_EXPORT || taskType == REPORT_BUILD
  }

  /** execute: a switch on the type; a null type makes the switch throw. */
  function Execute(taskType: Option<string>, taskDetailsJson: Option<string>): Result<string> {
    if taskType.None? then Err(NullPointer)
    else if taskType.value == EMAIL_SEND then Ok("{\"sent\":true}")
    else if taskType.value == PDF_GENERATE then Ok("{\"pdf\":\"generated\"}")
    else if taskType.value == DATA_EXPORT then Ok("{\"export\":\"done\"}")
    else if taskType.value == REPORT_BUILD then Ok("{\"report\":\"built\"}")
    else Err(IllegalArgument("Unknown taskType: " + taskType.value))
  }

  /** execute succeeds exactly for the four known types; an unknown type is
      an IllegalArgumentException naming it, a null one a
      NullPointerException. */
  lemma ExecuteOkIffKnown(taskType: Option<string>, taskDetailsJson: Option<string>)
    ensures var r := Execute(taskType, taskDetailsJson);
      && (r.Ok? <==> taskType.Some? && Known(taskType.value))
      && (taskType.None? ==> r == Err(NullPointer))
      && (taskType.Some? && !Known(taskType.value) ==> r == Err(IllegalArgument("Unknown taskType: " + taskType.value)))
  {
  }

  /** The result depends on the type only. */
  lemma ExecuteIgnoresDetails(taskType: Option<string>, d1: Option<string>, d2: Option<string>)
    ensures Execute(taskType, d1) == Execute(taskType, d2)
  {
  }

  /** Different known types give different results, so the result tells
      which handler ran. */
  lemma ExecuteResultsDistinct(a: string, b: string, d: Option<string>)
    requires Known(a) && Known(b) && a != b
    ensures Execute(Some(a), d) != Execute(Some(b), d)
  {
  }

  /** Matching is case-sensitive: any type name starting with a lower-case
      letter (such as "email_send") is unknown. */
  lemma ExecuteIsCaseSensitive(t: string, d: Option<string>)
    requires |t| > 0 && 'a' <= t[0] <= 'z'
    ensures Execute(Some(t), d) == Err(IllegalArgument("Unknown taskType: " + t))
  {
    assert t[0] != EMAIL_SEND[0] && t[0] != PDF_GENERATE[0] && t[0] != DATA_EXPORT[0] && t[0] != REPORT_BUILD[0];
  }
}
