/** The run controller of the newest bot revision, as far as its contract
    is fixed: the three exit statuses, the log with its level markers, the
    initial state, the cleanup of the HTTP session, and the published
    constants of the login step. */
module Bot {
  import opened Wrappers
  import opened Strings
  import opened LoginFlow
  import opened Mail

  // ---------------------------------------------------------------------
  // Exit statuses
  // ---------------------------------------------------------------------

  const ExitSuccess: int := 0
  const ExitFailure: int := 1
  const ExitSkipped: int := 2

  /** The three statuses are the conventional 0 and 1 and a distinct 2. */
  lemma ExitStatusesDistinct()
    ensures ExitSuccess == 0 && ExitFailure == 1 && ExitSkipped == 2
    ensures ExitSuccess != ExitFailure && ExitFailure != ExitSkipped && ExitSuccess != ExitSkipped
  {
  }

  // ---------------------------------------------------------------------
  // The log
  // ---------------------------------------------------------------------

  datatype LogLevel = Info | Success | Warning | Error

  const CheckMark: string := "\U{2705}"
  const CrossMark: string := "\U{274C}"
  const WarningSign: string := "\U{26A0}\U{FE0F}"

  /** The marker written in front of a message of each level. */
  function Marker(level: LogLevel): string {
    match level
    case Info => ""
    case Success => CheckMark + " "
    case Warning => WarningSign + " "
    case Error => CrossMark + " "
  }

  /** An opaque handle on an open HTTP session. */
  datatype SessionHandle = SessionHandle(id: nat)

  /** The stand-in for the optional text recogniser, loaded on first use. */
  datatype Recogniser = Recogniser

  datatype BotState = BotState(
    logMessages: seq<string>,
    loginAttempt: nat,
    session: Option<SessionHandle>,
    sessId: Option<string>,
    ocr: Option<Recogniser>)

  /** A fresh bot. */
  function Fresh(): (b: BotState)
    ensures b.logMessages == [] && b.loginAttempt == 1
    ensures b.session.None? && b.sessId.None? && b.ocr.None?
  {
    BotState([], 1, None, None, None)
  }

  function Entry(message: string, level: LogLevel): string {
    Marker(level) + message
  }

  /** `log` appends exactly one entry, which contains the message and the
      level's marker; nothing else changes. */
  function Log(b: BotState, message: string, level: LogLevel): (b': BotState)
    ensures |b'.logMessages| == |b.logMessages| + 1
    ensures b'.logMessages[..|b.logMessages|] == b.logMessages
    ensures Contains(b'.logMessages[|b.logMessages|], message)
    ensures Contains(b'.logMessages[|b.logMessages|], Marker(level))
    ensures b' == b.(logMessages := b'.logMessages)
  {
    var e := Entry(message, level);
    assert Contains(e, message) by {
      assert Contains(message, message) by { assert StartsWith(message, message); }
      ContainsWithin(Marker(level), message, "", message);
      assert Marker(level) + message + "" == e;
    }
    assert Contains(e, Marker(level)) by {
      assert StartsWith(e, Marker(level));
    }
    b.(logMessages := b.logMessages + [e])
  }

  /** A success entry carries the check mark and an error entry the cross. */
  lemma LevelMarkers(b: BotState, message: string)
    ensures Contains(Log(b, message, LogLevel.Success).logMessages[|b.logMessages|], CheckMark)
    ensures Contains(Log(b, message, LogLevel.Error).logMessages[|b.logMessages|], CrossMark)
  {
    var s := Log(b, message, LogLevel.Success).logMessages[|b.logMessages|];
    assert StartsWith(s, CheckMark);
    var e := Log(b, message, LogLevel.Error).logMessages[|b.logMessages|];
    assert StartsWith(e, CrossMark);
  }

  /** Two calls leave two entries, in call order. */
  lemma LogTwice(m1: string, l1: LogLevel, m2: string, l2: LogLevel)
    ensures |Log(Log(Fresh(), m1, l1), m2, l2).logMessages| == 2
    ensures Contains(Log(Log(Fresh(), m1, l1), m2, l2).logMessages[0], m1)
    ensures Contains(Log(Log(Fresh(), m1, l1), m2, l2).logMessages[1], m2)
  {
  }

  // ---------------------------------------------------------------------
  // Cleanup
  // ---------------------------------------------------------------------

  datatype Cleaned = Cleaned(state: BotState, closed: seq<SessionHandle>)

  /** Close the session if there is one and forget it. */
  function Cleanup(b: BotState): (r: Cleaned)
    ensures r.state.session.None?
    ensures b.session.Some? ==> r.closed == [b.session.value]
    ensures b.session.None? ==> r.closed == [] && r.state == b
    ensures r.state == b.(session := None)
  {
    match b.session
    case None => Cleaned(b, [])
    case Some(s) => Cleaned(b.(session := None), [s])
  }

  /** Cleaning up twice closes nothing more. */
  lemma CleanupIdempotent(b: BotState)
    ensures Cleanup(Cleanup(b).state).closed == []
    ensures Cleanup(Cleanup(b).state).state == Cleanup(b).state
  {
  }

  // ---------------------------------------------------------------------
  // Published constants and the login-success predicate
  // ---------------------------------------------------------------------

  lemma LoginConstants()
    ensures "Hello" in SuccessIndicators && |SuccessIndicators| >= 2
    ensures Contains(ToLower(CaptchaPrompt), "captcha")
  {
    assert SuccessIndicators[0] == "Hello";
    assert ToLower(CaptchaPrompt) == CaptchaPrompt;
    var k := |"solve the following "|;
    assert OccursAt(CaptchaPrompt, "captcha", k);
    OccursAtContains(CaptchaPrompt, "captcha", k);
  }

  /** A reply that opens with an indicator is a success. */
  lemma OpensWithIndicator(text: string, k: nat)
    requires k < |SuccessIndicators| && StartsWith(text, SuccessIndicators[k])
    ensures IsLoginSuccess(text)
  {
    assert Contains(text, SuccessIndicators[k]);
  }

  lemma GreetingIsSuccess()
    ensures IsLoginSuccess("Hello, user!")
  {
    var s := "Hello, user!";
    assert s[..5] == "Hello";
    OpensWithIndicator(s, 0);
  }

  lemma CustomerDataIsSuccess()
    ensures IsLoginSuccess("Confirm or change your customer data here")
  {
    var s := "Confirm or change your customer data here";
    assert s[..|s|] == s;
    OpensWithIndicator(s, 1);
  }

  lemma EmptyIsNoSuccess()
    ensures !IsLoginSuccess("")
  {
    LoginSuccessIff("");
    assert !StartsWith("", "Hello");
    assert !StartsWith("", "Confirm or change your customer data here");
  }

  lemma LoginSuccessExamples()
    ensures IsLoginSuccess("Hello, user!")
    ensures IsLoginSuccess("Confirm or change your customer data here")
    ensures !IsLoginSuccess("")
  {
    GreetingIsSuccess();
    CustomerDataIsSuccess();
    EmptyIsNoSuccess();
  }

  /** A text in which neither indicator's first letter occurs is not a success. */
  lemma NoIndicatorLetters(text: string)
    requires forall i :: 0 <= i < |text| ==> text[i] != 'H' && text[i] != 'C'
    ensures !IsLoginSuccess(text)
  {
    LoginSuccessIff(text);
    NotContainsWithoutFirst(text, "Hello");
    NotContainsWithoutFirst(text, "Confirm or change your customer data here");
  }

  /** The two failure replies the tests use are not successes. */
  lemma FailureRepliesAreNoSuccess()
    ensures !IsLoginSuccess("Login failed")
    ensures !IsLoginSuccess("Error occurred")
  {
    NoIndicatorLetters("Login failed");
    NoIndicatorLetters("Error occurred");
  }

  // ---------------------------------------------------------------------
  // The body of a plain-text message
  // ---------------------------------------------------------------------

  /** A single plain-text part is its own body, the empty one included. */
  lemma PlainTextBody(text: string)
    ensures ExtractBody(Part("text/plain", text)) == text
    ensures ExtractBody(Part("text/plain", "")) == ""
  {
  }
}
