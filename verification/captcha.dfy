/** Interpretation of the remote CAPTCHA service's JSON reply (both script
    revisions do the same): an explicit error status or a missing or empty
    result is an error; otherwise the recognised text is evaluated as
    arithmetic and the answer is the decimal text of its value. */
module Captcha {
  import opened Wrappers
  import opened Strings
  import opened Arithmetic

  /** The fields of the service's reply that the bot reads. */
  datatype ApiReply = ApiReply(status: Option<string>, result: Option<string>, message: Option<string>)

  datatype CaptchaError =
    | ApiError(message: Option<string>)   // the reply's status is "error"
    | NoResult                            // `result` absent or empty
    | NotArithmetic(text: string)         // the text does not evaluate

  function SolveCaptcha(reply: ApiReply): (r: Result<string, CaptchaError>)
    ensures reply.status == Some("error") ==> r == Failure(ApiError(reply.message))
    ensures (reply.status != Some("error") && (reply.result == None || reply.result == Some("")))
              ==> r == Failure(NoResult)
    ensures r.Success? <==>
              && reply.status != Some("error")
              && reply.result.Some? && reply.result.value != ""
              && Evaluate(reply.result.value).Some?
    ensures r.Success? ==> r.value == IntToDecimal(Evaluate(reply.result.value).value)
  {
    if reply.status == Some("error") then Failure(ApiError(reply.message))
    else if reply.result.None? || reply.result.value == "" then Failure(NoResult)
    else
      match Evaluate(reply.result.value)
      case None => Failure(NotArithmetic(reply.result.value))
      case Some(v) => Success(IntToDecimal(v))
  }

  /** A non-negative answer is a fixed point: if the service had returned the
      answer text itself, the same answer would be submitted. */
  lemma AnswerIsStable(reply: ApiReply)
    requires SolveCaptcha(reply).Success?
    requires Evaluate(reply.result.value).value >= 0
    ensures SolveCaptcha(reply.(result := Some(SolveCaptcha(reply).value))) == SolveCaptcha(reply)
  {
    var v: nat := Evaluate(reply.result.value).value;
    EvaluateNumeral(v);
  }
}
