/** The standalone single-VPS renewal script: a login that trusts any
    reply without a CAPTCHA, the search for the free VPS row and its
    renewal link, the PIN form whose hidden fields are merged over the PIN,
    the case-insensitive confirmation check, and the run that ties them
    together with the raising PIN extractor. */
module Script {
  import opened Wrappers
  import opened Strings
  import opened Scan
  import opened Captcha
  import opened LoginFlow
  import Bot
  import opened Mail
  import opened Renewal

  // ---------------------------------------------------------------------
  // Login
  // ---------------------------------------------------------------------

  /** What the portal and the CAPTCHA service show during the script's login. */
  datatype ScriptLoginEnv = ScriptLoginEnv(
    loginForm: Option<Option<string>>,  // the login form, if any, and its action attribute
    loginReply: string,                 // the reply to the credentials
    captchaImage: bool,                 // an image whose source names captcha.php is present
    captcha: ApiReply,
    captchaFormOk: bool,                // the CAPTCHA page has a form action and a text input
    finalReply: string)                 // the reply to the CAPTCHA answer

  datatype ScriptError =
    | NoLoginForm
    | NoFormAction
    | NoCaptchaImage
    | CaptchaFailed(cause: CaptchaError)
    | MalformedCaptchaForm
    | CaptchaLoginRejected
    | NoFreeVps
    | PinFailed(fetch: FetchError)
    | NoPinForm
    | NoPinInput
    | NotConfirmed

  const ControlPanel: string := "Control Panel"

  const Logout: string := "Logout"

  /** The login page has a form with a non-empty action. */
  predicate HasFormAction(x: ScriptLoginEnv) {
    x.loginForm.Some? && x.loginForm.value.Some? && x.loginForm.value.value != ""
  }

  /** The CAPTCHA page has its image, the answer is found, the answer form
      exists, and the final reply shows both customer-area markers. */
  predicate CaptchaRoundPasses(x: ScriptLoginEnv) {
    && x.captchaImage && SolveCaptcha(x.captcha).Success? && x.captchaFormOk
    && Contains(x.finalReply, ControlPanel) && Contains(x.finalReply, Logout)
  }

  /** The page the script carries on from: the credentials reply when no
      CAPTCHA was asked for, the CAPTCHA reply otherwise. */
  function ScriptLogin(x: ScriptLoginEnv): (r: Result<string, ScriptError>)
    ensures x.loginForm.None? ==> r == Failure(NoLoginForm)
    ensures x.loginForm == Some(None) || x.loginForm == Some(Some("")) ==> r == Failure(NoFormAction)
    ensures r.Success? ==> x.loginForm.Some? && x.loginForm.value.Some? && x.loginForm.value.value != ""
    ensures r.Success? && Contains(x.loginReply, CaptchaPrompt) ==>
              r.value == x.finalReply && Contains(x.finalReply, ControlPanel) && Contains(x.finalReply, Logout)
    ensures r.Success? && !Contains(x.loginReply, CaptchaPrompt) ==> r.value == x.loginReply
    ensures r.Failure? && r.error.CaptchaFailed? ==> SolveCaptcha(x.captcha) == Failure(r.error.cause)
    ensures r.Success? <==>
              HasFormAction(x) && (!Contains(x.loginReply, CaptchaPrompt) || CaptchaRoundPasses(x))
    ensures HasFormAction(x) && !Contains(x.loginReply, CaptchaPrompt) ==> r == Success(x.loginReply)
    ensures HasFormAction(x) && Contains(x.loginReply, CaptchaPrompt) && CaptchaRoundPasses(x) ==>
              r == Success(x.finalReply)
    ensures HasFormAction(x) && Contains(x.loginReply, CaptchaPrompt) && !x.captchaImage ==>
              r == Failure(NoCaptchaImage)
    ensures (HasFormAction(x) && Contains(x.loginReply, CaptchaPrompt) && x.captchaImage
             && SolveCaptcha(x.captcha).Failure?) ==> r == Failure(CaptchaFailed(SolveCaptcha(x.captcha).error))
    ensures (HasFormAction(x) && Contains(x.loginReply, CaptchaPrompt) && x.captchaImage
             && SolveCaptcha(x.captcha).Success? && !x.captchaFormOk) ==> r == Failure(MalformedCaptchaForm)
    ensures (HasFormAction(x) && Contains(x.loginReply, CaptchaPrompt) && x.captchaImage
             && SolveCaptcha(x.captcha).Success? && x.captchaFormOk
             && !(Contains(x.finalReply, ControlPanel) && Contains(x.finalReply, Logout))) ==>
              r == Failure(CaptchaLoginRejected)
  {
    match x.loginForm
    case None => Failure(NoLoginForm)
    case Some(action) =>
      if action.None? || action.value == "" then Failure(NoFormAction)
      else if !Contains(x.loginReply, CaptchaPrompt) then Success(x.loginReply)
      else if !x.captchaImage then Failure(NoCaptchaImage)
      else match SolveCaptcha(x.captcha)
        case Failure(e) => Failure(CaptchaFailed(e))
        case Success(_) =>
          if !x.captchaFormOk then Failure(MalformedCaptchaForm)
          else if !(Contains(x.finalReply, ControlPanel) && Contains(x.finalReply, Logout)) then
            Failure(CaptchaLoginRejected)
          else Success(x.finalReply)
  }

  /** Without a CAPTCHA nothing is checked: even a reply that shows no sign
      of a customer area is taken as logged in. */
  lemma NoCaptchaNoCheck(x: ScriptLoginEnv)
    requires x.loginForm.Some? && x.loginForm.value.Some? && x.loginForm.value.value != ""
    requires !Contains(x.loginReply, CaptchaPrompt)
    ensures ScriptLogin(x) == Success(x.loginReply)
  {
  }

  /** After a solved CAPTCHA the script demands both markers, where the bot
      only demands that the prompt is gone: a reply with the prompt gone but
      without "Logout" passes the bot and fails the script. */
  lemma StricterThanTheBot(x: ScriptLoginEnv, e: Exchange)
    requires x.loginForm.Some? && x.loginForm.value.Some? && x.loginForm.value.value != ""
    requires x.captchaImage && x.captchaFormOk
    requires x.loginReply == e.loginReply && x.captcha == e.captcha && x.finalReply == e.captchaReply
    requires ExtractSessId(e.entryPage).Some?
    requires !IsLoginSuccess(e.loginReply) && Contains(e.loginReply, CaptchaPrompt)
    requires SolveCaptcha(e.captcha).Success?
    requires !Contains(e.captchaReply, CaptchaPrompt) && !Contains(e.captchaReply, Logout)
    ensures LoginOnce(e) == Success(ExtractSessId(e.entryPage).value)
    ensures ScriptLogin(x) == Failure(CaptchaLoginRejected)
  {
    CaptchaPathChecksOnlyThePrompt(e);
  }

  // ---------------------------------------------------------------------
  // The free VPS and its renewal link
  // ---------------------------------------------------------------------

  /** A table row: its whole text and the `href` of each of its links, in order. */
  datatype ContractRow = ContractRow(text: string, hrefs: seq<Option<string>>)

  const FreeVps: string := "vServer FREE"

  const RenewMarker: string := "renew"

  datatype Trigger = Triggered(href: string) | NoRenewalLink

  function FreeRowAt(rows: seq<ContractRow>, j: nat): Option<nat> {
    if j < |rows| && Contains(rows[j].text, FreeVps) then Some(j) else None
  }

  function RenewHrefAt(hrefs: seq<Option<string>>, j: nat): Option<string> {
    if j < |hrefs| && hrefs[j].Some? && hrefs[j].value != "" && Contains(hrefs[j].value, RenewMarker)
    then hrefs[j] else None
  }

  /** The first link of the row whose target mentions "renew". */
  function RenewLink(hrefs: seq<Option<string>>): (r: Option<string>)
    ensures r.None? <==> forall j :: 0 <= j < |hrefs| && hrefs[j].Some? ==> !Contains(hrefs[j].value, RenewMarker)
    ensures r.Some? ==> Contains(r.value, RenewMarker)
    ensures r.Some? ==> exists j :: 0 <= j < |hrefs| && hrefs[j] == r
                                    && forall i :: 0 <= i < j && hrefs[i].Some? ==> !Contains(hrefs[i].value, RenewMarker)
  {
    var at := (j: nat) => RenewHrefAt(hrefs, j);
    match FirstFrom(0, |hrefs|, at)
    case None =>
      forall j: nat | 0 <= j < |hrefs| && hrefs[j].Some?
        ensures !Contains(hrefs[j].value, RenewMarker)
      {
        assert at(j).None?;
        if hrefs[j].value == "" {
          assert !StartsWith("", RenewMarker);
        }
      }
      None
    case Some(hit) =>
      var k := hit.at;
      assert at(k) == Some(hit.value);
      forall i: nat | 0 <= i < k && hrefs[i].Some?
        ensures !Contains(hrefs[i].value, RenewMarker)
      {
        assert at(i).None?;
        if hrefs[i].value == "" {
          assert !StartsWith("", RenewMarker);
        }
      }
      assert hrefs[k] == Some(hit.value);
      Some(hit.value)
  }

  /** What the script does with the free-VPS row it picked. */
  function RowTrigger(row: ContractRow): (t: Trigger)
    ensures t.Triggered? <==> exists j :: 0 <= j < |row.hrefs| && row.hrefs[j].Some?
                                         && Contains(row.hrefs[j].value, RenewMarker)
    ensures t.Triggered? ==> Contains(t.href, RenewMarker) && Some(t.href) in row.hrefs
  {
    match RenewLink(row.hrefs)
    case Some(h) => Triggered(h)
    case None => NoRenewalLink
  }

  /** Only the first row that mentions the free VPS is looked at. */
  function FindFreeVps(rows: seq<ContractRow>): (r: Result<Trigger, ScriptError>)
    ensures r.Failure? <==> forall j :: 0 <= j < |rows| ==> !Contains(rows[j].text, FreeVps)
    ensures r.Failure? ==> r.error == NoFreeVps
    ensures r.Success? ==> exists i :: 0 <= i < |rows| && Contains(rows[i].text, FreeVps)
                                       && (forall j :: 0 <= j < i ==> !Contains(rows[j].text, FreeVps))
                                       && r.value == RowTrigger(rows[i])
  {
    var at := (j: nat) => FreeRowAt(rows, j);
    match FirstFrom(0, |rows|, at)
    case None =>
      forall j: nat | 0 <= j < |rows|
        ensures !Contains(rows[j].text, FreeVps)
      {
        assert at(j).None?;
      }
      Failure(NoFreeVps)
    case Some(hit) =>
      var i := hit.at;
      assert at(i).Some?;
      forall j: nat | 0 <= j < i
        ensures !Contains(rows[j].text, FreeVps)
      {
        assert at(j).None?;
      }
      Success(RowTrigger(rows[i]))
  }

  /** The first free-VPS row decides the outcome. */
  lemma FindFreeVpsAt(rows: seq<ContractRow>, i: nat)
    requires i < |rows| && Contains(rows[i].text, FreeVps)
    requires forall j :: 0 <= j < i ==> !Contains(rows[j].text, FreeVps)
    ensures FindFreeVps(rows) == Success(RowTrigger(rows[i]))
  {
    var at := (j: nat) => FreeRowAt(rows, j);
    forall j | 0 <= j < i ensures at(j).None? {
      assert !Contains(rows[j].text, FreeVps);
    }
    FirstFromUnique(0, |rows|, at, i);
  }

  /** Rows after the first free-VPS row play no part, whatever they hold. */
  lemma LaterRowsIgnored(rows: seq<ContractRow>, more: seq<ContractRow>)
    requires exists j :: 0 <= j < |rows| && Contains(rows[j].text, FreeVps)
    ensures FindFreeVps(rows + more) == FindFreeVps(rows)
  {
    assert FindFreeVps(rows).Success?;
    var i :| 0 <= i < |rows| && Contains(rows[i].text, FreeVps)
             && (forall j :: 0 <= j < i ==> !Contains(rows[j].text, FreeVps))
             && FindFreeVps(rows).value == RowTrigger(rows[i]);
    forall j | 0 <= j < i ensures !Contains((rows + more)[j].text, FreeVps) {
      assert (rows + more)[j] == rows[j];
    }
    assert (rows + more)[i] == rows[i];
    FindFreeVpsAt(rows + more, i);
  }

  // ---------------------------------------------------------------------
  // The PIN form
  // ---------------------------------------------------------------------

  /** An `<input>` element's name and value attributes. */
  datatype Input = Input(name: Option<string>, value: Option<string>)

  /** A form on the PIN page: its action, the name attribute of its first
      text input if it has one, and its hidden inputs in order. */
  datatype Form = Form(action: Option<string>, textInput: Option<Option<string>>, hidden: seq<Input>)

  /** The posted form data; a missing attribute is Python's `None`. */
  type Payload = map<Option<string>, Option<string>>

  const PinCheck: string := "pin_check"

  function NamesOf(hs: seq<Input>): set<Option<string>> {
    set i | 0 <= i < |hs| :: hs[i].name
  }

  lemma NamesOfCons(hs: seq<Input>)
    requires 0 < |hs|
    ensures NamesOf(hs) == {hs[0].name} + NamesOf(hs[1..])
  {
    forall k | k in NamesOf(hs) ensures k in {hs[0].name} + NamesOf(hs[1..]) {
      var i :| 0 <= i < |hs| && hs[i].name == k;
      if i > 0 { assert hs[1..][i - 1] == hs[i]; }
    }
    forall k | k in NamesOf(hs[1..]) ensures k in NamesOf(hs) {
      var i :| 0 <= i < |hs[1..]| && hs[1..][i].name == k;
      assert hs[i + 1] == hs[1..][i];
    }
  }

  /** A first input whose name does not recur is not named in the rest. */
  lemma FirstNameNotRepeated(hs: seq<Input>)
    requires 0 < |hs| && forall j :: 0 < j < |hs| ==> hs[j].name != hs[0].name
    ensures hs[0].name !in NamesOf(hs[1..])
  {
    forall j | 0 <= j < |hs[1..]| ensures hs[1..][j].name != hs[0].name {
      assert hs[1..][j] == hs[j + 1];
    }
  }

  /** A later input whose name does not recur keeps that property in the rest. */
  lemma LastOfNameInRest(hs: seq<Input>, i: nat)
    requires 0 < i < |hs| && forall j :: i < j < |hs| ==> hs[j].name != hs[i].name
    ensures hs[1..][i - 1] == hs[i]
    ensures forall j :: i - 1 < j < |hs[1..]| ==> hs[1..][j].name != hs[1..][i - 1].name
  {
    forall j | i - 1 < j < |hs[1..]| ensures hs[1..][j].name != hs[1..][i - 1].name {
      assert hs[1..][j] == hs[j + 1];
    }
  }

  /** The loop that writes every hidden input into the payload, later ones
      overwriting earlier ones and anything already there. */
  function AddHidden(m: Payload, hs: seq<Input>): (r: Payload)
    ensures r.Keys == m.Keys + NamesOf(hs)
    ensures forall k :: k in m && k !in NamesOf(hs) ==> r[k] == m[k]
    ensures forall i :: 0 <= i < |hs| && (forall j :: i < j < |hs| ==> hs[j].name != hs[i].name) ==>
              r[hs[i].name] == hs[i].value
    decreases |hs|
  {
    if |hs| == 0 then
      assert NamesOf(hs) == {};
      m
    else
      var m' := m[hs[0].name := hs[0].value];
      var r := AddHidden(m', hs[1..]);
      NamesOfCons(hs);
      forall i | 0 <= i < |hs| && (forall j :: i < j < |hs| ==> hs[j].name != hs[i].name)
        ensures r[hs[i].name] == hs[i].value
      {
        if i == 0 {
          FirstNameNotRepeated(hs);
        } else {
          LastOfNameInRest(hs, i);
        }
      }
      r
  }

  /** `{name: pin}` followed by the hidden inputs. */
  function BuildPayload(pinName: Option<string>, pin: string, hidden: seq<Input>): (p: Payload)
    ensures p.Keys == {pinName} + NamesOf(hidden)
    ensures pinName !in NamesOf(hidden) ==> p[pinName] == Some(pin)
    ensures forall i :: 0 <= i < |hidden| && (forall j :: i < j < |hidden| ==> hidden[j].name != hidden[i].name) ==>
              p[hidden[i].name] == hidden[i].value
  {
    AddHidden(map[pinName := Some(pin)], hidden)
  }

  /** A hidden field named like the PIN input replaces the PIN in what is posted. */
  lemma HiddenFieldOverwritesPin(pinName: Option<string>, pin: string, hidden: seq<Input>, i: nat)
    requires i < |hidden| && hidden[i].name == pinName
    requires forall j :: i < j < |hidden| ==> hidden[j].name != pinName
    ensures BuildPayload(pinName, pin, hidden)[pinName] == hidden[i].value
  {
  }

  function PinFormAt(forms: seq<Form>, j: nat): Option<Form> {
    if j < |forms| && forms[j].action.Some? && forms[j].action.value != "" && Contains(forms[j].action.value, PinCheck)
    then Some(forms[j]) else None
  }

  /** The first form whose action mentions "pin_check". */
  function PinForm(forms: seq<Form>): (r: Option<Form>)
    ensures r.Some? ==> r.value.action.Some? && Contains(r.value.action.value, PinCheck)
    ensures r.None? <==>
              forall j :: 0 <= j < |forms| && forms[j].action.Some? ==> !Contains(forms[j].action.value, PinCheck)
    ensures r.Some? ==> exists i :: 0 <= i < |forms| && forms[i] == r.value
                                   && forall j :: 0 <= j < i && forms[j].action.Some? ==>
                                        !Contains(forms[j].action.value, PinCheck)
  {
    var at := (j: nat) => PinFormAt(forms, j);
    match FirstFrom(0, |forms|, at)
    case None =>
      forall j: nat | 0 <= j < |forms| && forms[j].action.Some?
        ensures !Contains(forms[j].action.value, PinCheck)
      {
        assert at(j).None?;
        if forms[j].action.value == "" {
          assert !StartsWith("", PinCheck);
        }
      }
      None
    case Some(hit) =>
      var i := hit.at;
      assert at(i) == Some(hit.value);
      forall j: nat | 0 <= j < i && forms[j].action.Some?
        ensures !Contains(forms[j].action.value, PinCheck)
      {
        assert at(j).None?;
        if forms[j].action.value == "" {
          assert !StartsWith("", PinCheck);
        }
      }
      Some(hit.value)
  }

  const Confirmation: string := "renewal was successful"

  predicate Confirmed(text: string) {
    Contains(ToLower(text), Confirmation)
  }

  /** Fill in and post the PIN form, then look for the confirmation; on
      success the posted payload is returned. */
  function SubmitPin(forms: seq<Form>, pin: string, finalText: string): (r: Result<Payload, ScriptError>)
    ensures PinForm(forms).None? ==> r == Failure(NoPinForm)
    ensures r.Success? <==> PinForm(forms).Some? && PinForm(forms).value.textInput.Some? && Confirmed(finalText)
    ensures r.Success? ==>
              r.value == BuildPayload(PinForm(forms).value.textInput.value, pin, PinForm(forms).value.hidden)
  {
    match PinForm(forms)
    case None => Failure(NoPinForm)
    case Some(form) =>
      match form.textInput
      case None => Failure(NoPinInput)
      case Some(name) =>
        var payload := BuildPayload(name, pin, form.hidden);
        if Confirmed(finalText) then Success(payload) else Failure(NotConfirmed)
  }

  lemma LowerLower(s: string)
    ensures ToLower(ToLower(s)) == ToLower(s)
  {
  }

  /** The confirmation is recognised in any letter case. */
  lemma ConfirmationIgnoresCase(text: string)
    ensures Confirmed(ToLower(text)) == Confirmed(text)
    ensures Confirmed(Confirmation)
  {
    LowerLower(text);
    assert ToLower(Confirmation) == Confirmation;
    assert StartsWith(Confirmation, Confirmation);
  }

  // ---------------------------------------------------------------------
  // The run
  // ---------------------------------------------------------------------

  datatype ScriptEnv = ScriptEnv(
    settings: Settings,
    login: ScriptLoginEnv,
    contracts: seq<ContractRow>,
    pinPage: seq<Form>,       // the forms of the page the renewal link leads to
    polls: nat -> Poll,
    finalText: string)        // the reply to the posted PIN form

  datatype ScriptRun =
    | ScriptSettingsMissing
    | Aborted(error: ScriptError, mailPolls: nat)
    | NothingToRenew
    | Renewed(pin: string, payload: Payload, mailPolls: nat)

  function MailPolls(r: ScriptRun): nat {
    if r.Aborted? || r.Renewed? then r.mailPolls else 0
  }

  /** The settings are complete, the login succeeded and the free-VPS row
      has a renewal link: the point where the script turns to the mailbox. */
  predicate ReachesMail(env: ScriptEnv) {
    && AllSet(SettingValues(env.settings))
    && ScriptLogin(env.login).Success?
    && FindFreeVps(env.contracts).Success? && FindFreeVps(env.contracts).value.Triggered?
  }

  function RunScript(env: ScriptEnv): (r: ScriptRun)
    ensures r == ScriptSettingsMissing <==> !AllSet(SettingValues(env.settings))
    ensures MailPolls(r) > 0 <==>
              && AllSet(SettingValues(env.settings))
              && ScriptLogin(env.login).Success?
              && FindFreeVps(env.contracts).Success? && FindFreeVps(env.contracts).value.Triggered?
    ensures MailPolls(r) > 0 ==> MailPolls(r) == FetchPin(RaiseOnMissingPin, env.polls).attempts
    ensures r == NothingToRenew <==>
              && AllSet(SettingValues(env.settings))
              && ScriptLogin(env.login).Success?
              && FindFreeVps(env.contracts) == Success(NoRenewalLink)
    ensures r.Renewed? ==> FetchPin(RaiseOnMissingPin, env.polls).result == Success(r.pin)
                           && Confirmed(env.finalText)
    ensures r.Renewed? <==>
              && ReachesMail(env)
              && FetchPin(RaiseOnMissingPin, env.polls).result.Success?
              && SubmitPin(env.pinPage, FetchPin(RaiseOnMissingPin, env.polls).result.value, env.finalText).Success?
    ensures r.Renewed? ==>
              && r.payload == SubmitPin(env.pinPage, r.pin, env.finalText).value
              && r.mailPolls == FetchPin(RaiseOnMissingPin, env.polls).attempts
    ensures AllSet(SettingValues(env.settings)) && ScriptLogin(env.login).Failure? ==>
              r == Aborted(ScriptLogin(env.login).error, 0)
    ensures (AllSet(SettingValues(env.settings)) && ScriptLogin(env.login).Success?
             && FindFreeVps(env.contracts).Failure?) ==> r == Aborted(NoFreeVps, 0)
    ensures ReachesMail(env) && FetchPin(RaiseOnMissingPin, env.polls).result.Failure? ==>
              r == Aborted(PinFailed(FetchPin(RaiseOnMissingPin, env.polls).result.error),
                           FetchPin(RaiseOnMissingPin, env.polls).attempts)
    ensures (ReachesMail(env) && FetchPin(RaiseOnMissingPin, env.polls).result.Success?
             && SubmitPin(env.pinPage, FetchPin(RaiseOnMissingPin, env.polls).result.value, env.finalText).Failure?) ==>
              r == Aborted(SubmitPin(env.pinPage, FetchPin(RaiseOnMissingPin, env.polls).result.value, env.finalText).error,
                           FetchPin(RaiseOnMissingPin, env.polls).attempts)
  {
    if !AllSet(SettingValues(env.settings)) then ScriptSettingsMissing
    else match ScriptLogin(env.login)
      case Failure(e) => Aborted(e, 0)
      case Success(_) =>
        match FindFreeVps(env.contracts)
        case Failure(e) => Aborted(e, 0)
        case Success(NoRenewalLink) => NothingToRenew
        case Success(Triggered(_)) =>
          var fetch := FetchPin(RaiseOnMissingPin, env.polls);
          match fetch.result
          case Failure(e) => Aborted(PinFailed(e), fetch.attempts)
          case Success(pin) =>
            match SubmitPin(env.pinPage, pin, env.finalText)
            case Failure(e) => Aborted(e, fetch.attempts)
            case Success(payload) => Renewed(pin, payload, fetch.attempts)
  }

  /** Missing settings and escaping exceptions end the process with 1. */
  function ScriptExitCode(r: ScriptRun): (code: int)
    ensures code == 1 <==> r.ScriptSettingsMissing? || r.Aborted?
    ensures code == 0 <==> r.NothingToRenew? || r.Renewed?
  {
    if r.ScriptSettingsMissing? || r.Aborted? then Bot.ExitFailure else Bot.ExitSuccess
  }
}
