/** The login procedure of the single-account script and its bounded retry
    wrapper. One attempt scrapes the session identifier from the entry
    page, posts the credentials and classifies the reply: a success
    indicator means logged in, the CAPTCHA prompt leads to one CAPTCHA
    round, anything else is a rejection reported as the session identifier
    "-1". The wrapper repeats attempts while they report "-1". */
module LoginFlow {
  import opened Wrappers
  import opened Strings
  import opened Scan
  import opened Captcha

  /** Texts whose presence in a reply means the customer area was reached. */
  const SuccessIndicators: seq<string> := ["Hello", "Confirm or change your customer data here"]

  const CaptchaPrompt: string := "solve the following captcha"

  /** The session identifier that stands for "not logged in". */
  const Rejected: string := "-1"

  const LoginMaxRetry: nat := 3

  /** Seconds slept before every attempt but the first. */
  const RetryPauseSeconds: nat := 5

  predicate IsLoginSuccess(text: string) {
    exists i :: 0 <= i < |SuccessIndicators| && Contains(text, SuccessIndicators[i])
  }

  /** The login-success predicate is exactly "one of the two indicators occurs". */
  lemma LoginSuccessIff(text: string)
    ensures IsLoginSuccess(text)
        <==> Contains(text, "Hello") || Contains(text, "Confirm or change your customer data here")
  {
    if Contains(text, "Hello") {
      assert Contains(text, SuccessIndicators[0]);
    }
    if Contains(text, "Confirm or change your customer data here") {
      assert Contains(text, SuccessIndicators[1]);
    }
  }

  // ---------------------------------------------------------------------
  // The session identifier on the entry page: name="sess_id" value="(\w+)"
  // ---------------------------------------------------------------------

  const SessIdMarker: string := "name=\"sess_id\" value=\""

  predicate AllWordChars(s: string) {
    forall i :: 0 <= i < |s| ==> IsWordChar(s[i])
  }

  /** The identifier the pattern captures when matched at position `k`:
      `\w+` is greedy and `"` is not a word character, so the capture is
      the whole run of word characters, which must be non-empty and be
      followed by a quote. */
  function SessIdAt(page: string, k: nat): (r: Option<string>)
    ensures r.Some? ==> 0 < |r.value| && AllWordChars(r.value)
  {
    if OccursAt(page, SessIdMarker, k) then
      var start := k + |SessIdMarker|;
      var n := Run(page[start..], IsWordChar);
      if 0 < n && start + n < |page| && page[start + n] == '"' then Some(page[start..start + n]) else None
    else None
  }

  /** `re.search`: the leftmost position where the pattern matches. */
  function ExtractSessId(page: string): (r: Option<string>)
    ensures r.Some? ==> 0 < |r.value| && AllWordChars(r.value) && r.value != Rejected
    ensures r.Some? <==> exists k :: 0 <= k < |page| && SessIdAt(page, k).Some?
    ensures r.Some? ==> exists k :: 0 <= k < |page| && SessIdAt(page, k) == r
                                   && forall j :: 0 <= j < k ==> SessIdAt(page, j).None?
  {
    var at := (k: nat) => SessIdAt(page, k);
    match FirstFrom(0, |page|, at)
    case None =>
      forall k: nat | 0 <= k < |page|
        ensures SessIdAt(page, k).None?
      {
        assert at(k).None?;
      }
      None
    case Some(hit) =>
      forall j: nat | 0 <= j < hit.at
        ensures SessIdAt(page, j).None?
      {
        assert at(j).None?;
      }
      assert SessIdAt(page, hit.at) == Some(hit.value);
      assert !IsWordChar(Rejected[0]);
      Some(hit.value)
  }

  // ---------------------------------------------------------------------
  // One login attempt
  // ---------------------------------------------------------------------

  /** What the portal and the CAPTCHA service answer during one attempt. */
  datatype Exchange = Exchange(
    entryPage: string,      // the unauthenticated entry page
    loginReply: string,     // the reply to the credentials
    captcha: ApiReply,      // the CAPTCHA service's reply, read only on the CAPTCHA path
    captchaReply: string)   // the reply to the CAPTCHA answer, read only on that path

  datatype LoginError =
    | NoSessId                           // the entry page carries no session identifier
    | CaptchaUnsolved(cause: CaptchaError)

  function LoginOnce(x: Exchange): (r: Result<string, LoginError>)
    ensures ExtractSessId(x.entryPage).None? ==> r == Failure(NoSessId)
    ensures r.Success? && r.value != Rejected ==> Some(r.value) == ExtractSessId(x.entryPage)
    ensures r.Success? && r.value != Rejected <==>
              && ExtractSessId(x.entryPage).Some?
              && (|| IsLoginSuccess(x.loginReply)
                  || (&& Contains(x.loginReply, CaptchaPrompt)
                      && SolveCaptcha(x.captcha).Success?
                      && !Contains(x.captchaReply, CaptchaPrompt)))
    ensures r.Failure? ==>
              || r == Failure(NoSessId)
              || (!IsLoginSuccess(x.loginReply) && Contains(x.loginReply, CaptchaPrompt)
                  && SolveCaptcha(x.captcha).Failure?)
    ensures r == Failure(NoSessId) <==> ExtractSessId(x.entryPage).None?
    ensures r.Failure? && r != Failure(NoSessId) <==>
              && ExtractSessId(x.entryPage).Some?
              && !IsLoginSuccess(x.loginReply) && Contains(x.loginReply, CaptchaPrompt)
              && SolveCaptcha(x.captcha).Failure?
    ensures r == Success(Rejected) <==>
              && ExtractSessId(x.entryPage).Some?
              && !IsLoginSuccess(x.loginReply)
              && (|| !Contains(x.loginReply, CaptchaPrompt)
                  || (SolveCaptcha(x.captcha).Success? && Contains(x.captchaReply, CaptchaPrompt)))
  {
    match ExtractSessId(x.entryPage)
    case None => Failure(NoSessId)
    case Some(sessId) =>
      if IsLoginSuccess(x.loginReply) then Success(sessId)
      else if !Contains(x.loginReply, CaptchaPrompt) then Success(Rejected)
      else
        match SolveCaptcha(x.captcha)
        case Failure(e) => Failure(CaptchaUnsolved(e))
        case Success(_) =>
          if Contains(x.captchaReply, CaptchaPrompt) then Success(Rejected) else Success(sessId)
  }

  /** When the first reply already shows a success indicator the CAPTCHA
      service and the second reply play no part. */
  lemma ImmediateSuccessSkipsCaptcha(x: Exchange, captcha: ApiReply, captchaReply: string)
    requires ExtractSessId(x.entryPage).Some? && IsLoginSuccess(x.loginReply)
    ensures LoginOnce(x) == Success(ExtractSessId(x.entryPage).value)
    ensures LoginOnce(x.(captcha := captcha, captchaReply := captchaReply)) == LoginOnce(x)
  {
  }

  /** After a solved CAPTCHA only the prompt's absence is checked: a second
      reply without any success indicator still logs in. */
  lemma CaptchaPathChecksOnlyThePrompt(x: Exchange)
    requires ExtractSessId(x.entryPage).Some?
    requires !IsLoginSuccess(x.loginReply) && Contains(x.loginReply, CaptchaPrompt)
    requires SolveCaptcha(x.captcha).Success?
    ensures LoginOnce(x).Success?
    ensures LoginOnce(x).value != Rejected <==> !Contains(x.captchaReply, CaptchaPrompt)
  {
  }

  // ---------------------------------------------------------------------
  // The retry wrapper
  // ---------------------------------------------------------------------

  /** How a run of the wrapper ended, how many attempts it made and how many
      pauses it slept. */
  datatype RetryRun = RetryRun(outcome: Result<string, LoginError>, calls: nat, pauses: nat)

  function PausesBefore(calls: nat): nat {
    if calls == 0 then 0 else calls - 1
  }

  /** The wrapper from attempt `i` (0-based) on; `attempt(j)` is what the
      `j`-th call of the wrapped login returns. */
  function RetryFrom(i: nat, maxRetry: nat, attempt: nat -> Result<string, LoginError>): (r: RetryRun)
    requires i <= maxRetry
    ensures i <= r.calls <= maxRetry
    ensures r.pauses == PausesBefore(r.calls)
    ensures forall j :: i <= j < r.calls - 1 ==> attempt(j) == Success(Rejected)
    ensures r.outcome != Success(Rejected) ==> i < r.calls && attempt(r.calls - 1) == r.outcome
    ensures r.outcome == Success(Rejected) ==>
              r.calls == maxRetry && forall j :: i <= j < maxRetry ==> attempt(j) == Success(Rejected)
    decreases maxRetry - i
  {
    if i == maxRetry then RetryRun(Success(Rejected), i, PausesBefore(i))
    else match attempt(i)
      case Failure(e) => RetryRun(Failure(e), i + 1, i)
      case Success(sessId) =>
        if sessId != Rejected then RetryRun(Success(sessId), i + 1, i)
        else RetryFrom(i + 1, maxRetry, attempt)
  }

  /** At most `maxRetry` attempts; the first result other than "-1" is
      returned (an error escapes at once); "-1" only after every attempt
      said "-1"; a pause before each attempt but the first. */
  function LoginRetry(maxRetry: nat, attempt: nat -> Result<string, LoginError>): (r: RetryRun)
    ensures r.calls <= maxRetry
    ensures r.pauses == PausesBefore(r.calls)
    ensures forall j :: 0 <= j < r.calls - 1 ==> attempt(j) == Success(Rejected)
    ensures r.outcome != Success(Rejected) ==> 0 < r.calls && attempt(r.calls - 1) == r.outcome
    ensures r.outcome == Success(Rejected) <==>
              forall j :: 0 <= j < maxRetry ==> attempt(j) == Success(Rejected)
    ensures r.outcome == Success(Rejected) ==> r.calls == maxRetry
  {
    RetryFrom(0, maxRetry, attempt)
  }

  /** The decorated login: up to three attempts, each against its own exchange. */
  function Login(exchanges: nat -> Exchange): (r: RetryRun)
    ensures r.calls <= LoginMaxRetry
    ensures r.outcome.Success? && r.outcome.value != Rejected ==>
              0 < r.calls && Some(r.outcome.value) == ExtractSessId(exchanges(r.calls - 1).entryPage)
  {
    LoginRetry(LoginMaxRetry, (i: nat) => LoginOnce(exchanges(i)))
  }

  /** A run that logs in on its first attempt makes no further attempt and never pauses. */
  lemma FirstAttemptSuffices(exchanges: nat -> Exchange)
    requires LoginOnce(exchanges(0)).Success? && LoginOnce(exchanges(0)).value != Rejected
    ensures Login(exchanges) == RetryRun(LoginOnce(exchanges(0)), 1, 0)
  {
  }
}
