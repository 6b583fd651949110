/**
 * The `ValidationResult` record every validation stage returns:
 * `{ valid, meta: { status, message }, data? }`.
 */
module Verdicts {
  import opened Base

  const SUCCESS: string := "Success"
  const FAILED: string := "Failed"

  datatype Meta = Meta(status: string, message: string)

  /** What a successful URL validation reports about the URL. */
  datatype UrlDetails = UrlDetails(
    original: string,
    normalized: string,
    protocolAdded: bool,
    hostname: string,
    port: string,
    path: string)

  /** The `data` member of a successful URL validation. */
  datatype ResultData = ResultData(status: string, message: string, details: UrlDetails)

  datatype ValidationResult = ValidationResult(valid: bool, meta: Meta, data: Option<ResultData>)

  /** A passing stage result with the given message. */
  function Pass(message: string): ValidationResult {
    ValidationResult(true, Meta(SUCCESS, message), None)
  }

  /** A failing stage result with the given message. */
  function Fail(message: string): ValidationResult {
    ValidationResult(false, Meta(FAILED, message), None)
  }

  /** The shape every result of the core has: "Success" exactly when valid,
      "Failed" otherwise, and a failure names its reason and carries no data. */
  predicate WellFormed(r: ValidationResult) {
    && (r.valid ==> r.meta.status == SUCCESS)
    && (!r.valid ==> r.meta.status == FAILED && r.meta.message != "" && r.data.None?)
  }
}
