/** The mail side of the renewal: choosing the newest matching message,
    reading its plain-text body, finding the six-digit PIN in it, and the
    bounded polling loop around all of that. Both script revisions share
    everything except what happens when a matching message carries no PIN:
    the bot revision waits and polls again, the standalone extractor raises
    at once. */
module Mail {
  import opened Wrappers
  import opened Strings
  import opened Scan

  // ---------------------------------------------------------------------
  // Messages and their plain-text body
  // ---------------------------------------------------------------------

  /** A parsed message: a single part with its content type and decoded
      payload, or a multipart container of sub-messages. */
  datatype Message =
    | Part(contentType: string, payload: string)
    | Multipart(parts: seq<Message>)

  predicate IsPlain(m: Message) {
    m.Part? && m.contentType == "text/plain"
  }

  /** `Message.walk()`: the message itself, then its parts depth-first, in order. */
  function Walk(m: Message): (w: seq<Message>)
    ensures 0 < |w| && w[0] == m
    decreases m
  {
    match m
    case Part(_, _) => [m]
    case Multipart(ps) => [m] + WalkAll(ps)
  }

  function WalkAll(ps: seq<Message>): seq<Message>
    decreases ps
  {
    if |ps| == 0 then [] else Walk(ps[0]) + WalkAll(ps[1..])
  }

  /** The payload of the first plain-text message in `ms`, if any. */
  function FirstPlainIn(ms: seq<Message>): (r: Option<string>)
    ensures r.None? <==> forall i :: 0 <= i < |ms| ==> !IsPlain(ms[i])
    ensures r.Some? ==> exists i :: 0 <= i < |ms| && IsPlain(ms[i]) && ms[i].payload == r.value
                                   && forall j :: 0 <= j < i ==> !IsPlain(ms[j])
    decreases |ms|
  {
    if |ms| == 0 then None
    else if IsPlain(ms[0]) then Some(ms[0].payload)
    else
      var r := FirstPlainIn(ms[1..]);
      assert r.Some? ==> exists i :: 0 <= i < |ms| - 1 && IsPlain(ms[1..][i]) && ms[1..][i].payload == r.value
                                     && forall j :: 0 <= j < i ==> !IsPlain(ms[1..][j]);
      if r.Some? then
        var i :| 0 <= i < |ms| - 1 && IsPlain(ms[1..][i]) && ms[1..][i].payload == r.value
                 && forall j :: 0 <= j < i ==> !IsPlain(ms[1..][j]);
        assert forall j :: 0 <= j < i + 1 ==> !IsPlain(ms[j]) by {
          forall j | 0 <= j < i + 1 ensures !IsPlain(ms[j]) {
            if j > 0 { assert ms[j] == ms[1..][j - 1]; }
          }
        }
        assert IsPlain(ms[i + 1]) && ms[i + 1].payload == r.value;
        r
      else
        assert forall i :: 0 <= i < |ms| ==> !IsPlain(ms[i]) by {
          forall i | 0 <= i < |ms| ensures !IsPlain(ms[i]) {
            if i > 0 { assert ms[i] == ms[1..][i - 1]; }
          }
        }
        r
  }

  /** The body the scripts read: a single-part message's own payload
      whatever its type; for a multipart message the payload of the first
      plain-text part met on the walk, or "" when there is none. */
  function ExtractBody(m: Message): (body: string)
    ensures m.Part? ==> body == m.payload
    ensures m.Multipart? && (forall i :: 0 <= i < |Walk(m)| ==> !IsPlain(Walk(m)[i])) ==> body == ""
    ensures m.Multipart? && body != "" ==>
              exists i :: 0 <= i < |Walk(m)| && Walk(m)[i] == Part("text/plain", body)
  {
    if m.Part? then m.payload
    else
      match FirstPlainIn(Walk(m))
      case None => ""
      case Some(b) => b
  }

  /** The same search written structurally: a part answers for itself, a
      container asks its parts in order. */
  function FirstPlain(m: Message): Option<string>
    decreases m
  {
    match m
    case Part(ct, p) => if ct == "text/plain" then Some(p) else None
    case Multipart(ps) => FirstPlainAmong(ps)
  }

  function FirstPlainAmong(ps: seq<Message>): Option<string>
    decreases ps
  {
    if |ps| == 0 then None
    else match FirstPlain(ps[0])
      case Some(b) => Some(b)
      case None => FirstPlainAmong(ps[1..])
  }

  lemma {:induction false} FirstPlainInConcat(a: seq<Message>, b: seq<Message>)
    ensures FirstPlainIn(a + b) == if FirstPlainIn(a).Some? then FirstPlainIn(a) else FirstPlainIn(b)
    decreases |a|
  {
    if |a| == 0 {
      assert a + b == b;
    } else {
      assert (a + b)[1..] == a[1..] + b;
      FirstPlainInConcat(a[1..], b);
    }
  }

  /** Walking the flattened message and asking the tree agree. */
  lemma {:induction false} WalkAgrees(m: Message)
    ensures FirstPlainIn(Walk(m)) == FirstPlain(m)
    decreases m
  {
    match m
    case Part(_, _) =>
    case Multipart(ps) =>
      WalkAllAgrees(ps);
      assert Walk(m)[1..] == WalkAll(ps);
  }

  lemma {:induction false} WalkAllAgrees(ps: seq<Message>)
    ensures FirstPlainIn(WalkAll(ps)) == FirstPlainAmong(ps)
    decreases ps
  {
    if |ps| > 0 {
      WalkAgrees(ps[0]);
      WalkAllAgrees(ps[1..]);
      FirstPlainInConcat(Walk(ps[0]), WalkAll(ps[1..]));
    }
  }

  /** A multipart body is the first plain-text part of the structural search. */
  lemma MultipartBody(ps: seq<Message>)
    ensures ExtractBody(Multipart(ps)) == match FirstPlainAmong(ps) case Some(b) => b case None => ""
  {
    WalkAgrees(Multipart(ps));
  }

  // ---------------------------------------------------------------------
  // The PIN: PIN:\s*\n?(\d{6}) with IGNORECASE
  // ---------------------------------------------------------------------

  const PinTag: string := "PIN:"

  const PinLength: nat := 6

  predicate IsPin(s: string) {
    |s| == PinLength && AllDigits(s)
  }

  /** The capture when the pattern is tried at `k`. `\s*` is greedy and
      `\n` is whitespace, so `\n?` never consumes anything after it; the
      digits must follow the whole whitespace run. Nothing is required
      after the six digits. */
  function PinAt(body: string, k: nat): (r: Option<string>)
    ensures r.Some? ==> IsPin(r.value)
    ensures r.Some? ==> k + |PinTag| <= |body| && ToUpper(body[k..k + |PinTag|]) == PinTag
  {
    if k + |PinTag| <= |body| && ToUpper(body[k..k + |PinTag|]) == PinTag then
      var start := k + |PinTag|;
      var d := start + Run(body[start..], IsRegexSpace);
      if d + PinLength <= |body| && AllDigits(body[d..d + PinLength]) then Some(body[d..d + PinLength])
      else None
    else None
  }

  /** `re.search`: the capture at the leftmost position where the pattern matches. */
  function FindPin(body: string): (r: Option<string>)
    ensures r.Some? ==> IsPin(r.value)
    ensures r.Some? <==> exists k :: 0 <= k < |body| && PinAt(body, k).Some?
    ensures r.Some? ==> exists k :: 0 <= k < |body| && PinAt(body, k) == r
                                   && forall j :: 0 <= j < k ==> PinAt(body, j).None?
  {
    var at := (k: nat) => PinAt(body, k);
    match FirstFrom(0, |body|, at)
    case None =>
      forall k: nat | 0 <= k < |body|
        ensures PinAt(body, k).None?
      {
        assert at(k).None?;
      }
      None
    case Some(hit) =>
      forall j: nat | 0 <= j < hit.at
        ensures PinAt(body, j).None?
      {
        assert at(j).None?;
      }
      assert PinAt(body, hit.at) == Some(hit.value);
      Some(hit.value)
  }

  /** The PIN is found after any text free of the letter p, whatever the
      case of the tag and however much whitespace (newlines included)
      separates it from the digits, and whatever follows the digits. */
  lemma FindPinAfter(a: string, tag: string, w: string, pin: string, b: string)
    requires forall i :: 0 <= i < |a| ==> LowerChar(a[i]) != 'p'
    requires |tag| == |PinTag| && ToUpper(tag) == PinTag
    requires forall i :: 0 <= i < |w| ==> IsRegexSpace(w[i])
    requires IsPin(pin)
    ensures FindPin(a + tag + w + pin + b) == Some(pin)
  {
    var body := a + tag + w + pin + b;
    forall j: nat | 0 <= j < |a|
      ensures PinAt(body, j).None?
    {
      if j + |PinTag| <= |body| {
        assert body[j..j + |PinTag|][0] == a[j];
        assert ToUpper(body[j..j + |PinTag|])[0] != 'P';
      }
    }
    var start := |a| + |tag|;
    assert body[|a|..start] == tag;
    assert body[start..] == w + (pin + b);
    assert !IsRegexSpace(pin[0]);
    RunOfConcat(w, pin + b, IsRegexSpace);
    var d := start + |w|;
    assert body[d..d + PinLength] == pin;
    assert PinAt(body, |a|) == Some(pin);
    FirstFromUnique(0, |body|, (k: nat) => PinAt(body, k), |a|);
  }

  /** The tag and the digits on separate lines. */
  lemma PinOnNextLine()
    ensures FindPin("PIN:\n123456") == Some("123456")
  {
    var body := "PIN:\n123456";
    assert ToUpper("PIN:") == PinTag;
    assert "" + "PIN:" + "\n" + "123456" + "" == body;
    FindPinAfter("", "PIN:", "\n", "123456", "");
  }

  /** A body in which no `p` or `P` occurs has no PIN. */
  lemma NoPinWithoutTag(body: string)
    requires forall i :: 0 <= i < |body| ==> LowerChar(body[i]) != 'p'
    ensures FindPin(body) == None
  {
    forall k: nat | 0 <= k < |body|
      ensures PinAt(body, k).None?
    {
      if k + |PinTag| <= |body| {
        assert body[k..k + |PinTag|][0] == body[k];
        assert ToUpper(body[k..k + |PinTag|])[0] != 'P';
      }
    }
  }

  // ---------------------------------------------------------------------
  // One mailbox poll
  // ---------------------------------------------------------------------

  /** What one connection to the mailbox sees: it fails outright (connect,
      login or select raises), or the search answers with a status and the
      space-separated message numbers, and `mailbox` maps the numbers that
      can be fetched to their messages. */
  datatype Poll =
    | Unreachable
    | Searched(status: string, ids: string, mailbox: map<string, Message>)

  /** Exceptions raised while polling. */
  datatype PollError =
    | MailboxError            // the connection, login, select or search raised
    | NoIdInList              // a non-empty search answer without any number
    | MissingMessage(id: string)

  datatype FetchError =
    | PollFailed(cause: PollError)
    | PinNotFound             // the extractor's "no PIN in the message"
    | Exhausted               // every attempt ended without a PIN

  /** What one poll found, before a revision decides what to do about it. */
  datatype Sighting =
    | Raised(error: PollError)
    | NoEmail                 // status not OK, or no matching message
    | EmailWithoutPin
    | PinFound(pin: string)

  /** `messages[0].split()[-1]`, an error when the answer holds no number. */
  function LatestId(ids: string): (r: Option<string>)
    ensures r.Some? ==> IsWord(r.value)
    ensures r.None? <==> Words(ids) == []
  {
    var ws := Words(ids);
    if |ws| == 0 then None else Some(ws[|ws| - 1])
  }

  /** For a list the server writes with single spaces, the latest id is its last entry. */
  lemma LatestIdOfList(ws: seq<string>)
    requires 0 < |ws|
    requires forall i :: 0 <= i < |ws| ==> IsWord(ws[i])
    ensures LatestId(JoinWords(ws)) == Some(ws[|ws| - 1])
  {
    WordsOfJoin(ws);
  }

  /** The search succeeded, listed at least one number, and the newest one can be fetched. */
  predicate ListsNewest(p: Poll) {
    && p.Searched? && p.status == "OK" && p.ids != ""
    && LatestId(p.ids).Some? && LatestId(p.ids).value in p.mailbox
  }

  /** The decoded body of the newest listed message. */
  function NewestBody(p: Poll): string
    requires ListsNewest(p)
  {
    ExtractBody(p.mailbox[LatestId(p.ids).value])
  }

  function Examine(p: Poll): (s: Sighting)
    ensures s.PinFound? ==> IsPin(s.pin)
    ensures p.Unreachable? ==> s == Raised(MailboxError)
    ensures p.Searched? && (p.status != "OK" || p.ids == "") ==> s == NoEmail
    ensures s.Raised? <==> p.Unreachable? || (p.status == "OK" && p.ids != "" && !ListsNewest(p))
    ensures s.PinFound? ==> ListsNewest(p) && FindPin(NewestBody(p)) == Some(s.pin)
    ensures ListsNewest(p) && FindPin(NewestBody(p)).Some? ==> s == PinFound(FindPin(NewestBody(p)).value)
    ensures s == EmailWithoutPin <==> ListsNewest(p) && FindPin(NewestBody(p)).None?
  {
    match p
    case Unreachable => Raised(MailboxError)
    case Searched(status, ids, mailbox) =>
      if status != "OK" || ids == "" then NoEmail
      else
        match LatestId(ids)
        case None => Raised(NoIdInList)
        case Some(id) =>
          if id !in mailbox then Raised(MissingMessage(id))
          else
            match FindPin(ExtractBody(mailbox[id]))
            case None => EmailWithoutPin
            case Some(pin) => PinFound(pin)
  }

  /** Older messages in the answer are never read: only the last number counts. */
  lemma OnlyLatestMessageCounts(ws: seq<string>, mailbox: map<string, Message>, older: map<string, Message>)
    requires 0 < |ws|
    requires forall i :: 0 <= i < |ws| ==> IsWord(ws[i])
    requires ws[|ws| - 1] in mailbox && ws[|ws| - 1] in older
    requires older[ws[|ws| - 1]] == mailbox[ws[|ws| - 1]]
    ensures Examine(Searched("OK", JoinWords(ws), mailbox)) == Examine(Searched("OK", JoinWords(ws), older))
  {
    LatestIdOfList(ws);
    assert JoinWords(ws) != "" by {
      WordsOfJoin(ws);
    }
  }

  // ---------------------------------------------------------------------
  // The polling loop
  // ---------------------------------------------------------------------

  /** The bot revision polls again after a message without a PIN; the
      standalone extractor raises. */
  datatype Policy = RetryOnMissingPin | RaiseOnMissingPin

  const PinAttempts: nat := 3

  const PinPauseSeconds: nat := 30

  /** How a fetch ended, how many polls it made, how many pauses it slept. */
  datatype PinRun = PinRun(result: Result<string, FetchError>, attempts: nat, pauses: nat)

  /** Does this sighting end the loop, and with what? */
  function Settle(policy: Policy, s: Sighting): (r: Option<Result<string, FetchError>>)
    ensures r.None? <==> s == NoEmail || (s == EmailWithoutPin && policy == RetryOnMissingPin)
    ensures r == Some(Failure(PinNotFound)) <==> s == EmailWithoutPin && policy == RaiseOnMissingPin
    ensures r.Some? && r.value.Success? ==> s == PinFound(r.value.value)
  {
    match s
    case Raised(e) => Some(Failure(PollFailed(e)))
    case PinFound(pin) => Some(Success(pin))
    case NoEmail => None
    case EmailWithoutPin =>
      match policy
      case RaiseOnMissingPin => Some(Failure(PinNotFound))
      case RetryOnMissingPin => None
  }

  /** Attempts `i` to the end; `seen(j)` is what attempt `j` (0-based) found. */
  function FetchFrom(i: nat, policy: Policy, seen: nat -> Sighting): (r: PinRun)
    requires i <= PinAttempts
    ensures i <= r.attempts <= PinAttempts
    ensures forall j :: i <= j < r.attempts - 1 ==> Settle(policy, seen(j)).None?
    ensures r.result == Failure(Exhausted) <==>
              forall j :: i <= j < PinAttempts ==> Settle(policy, seen(j)).None?
    ensures r.result == Failure(Exhausted) ==> r.attempts == PinAttempts && r.pauses == PinAttempts
    ensures r.result != Failure(Exhausted) ==>
              i < r.attempts && r.pauses == r.attempts - 1 && Settle(policy, seen(r.attempts - 1)) == Some(r.result)
    decreases PinAttempts - i
  {
    if i == PinAttempts then PinRun(Failure(Exhausted), PinAttempts, PinAttempts)
    else match Settle(policy, seen(i))
      case Some(result) => PinRun(result, i + 1, i)
      case None => FetchFrom(i + 1, policy, seen)
  }

  /** What each attempt of a fetch over `polls` found. */
  function Sightings(polls: nat -> Poll): nat -> Sighting {
    (j: nat) => Examine(polls(j))
  }

  /** The whole PIN fetch: at most three polls, a pause after every poll
      that found nothing usable, an error from any poll propagated at once. */
  function FetchPin(policy: Policy, polls: nat -> Poll): (r: PinRun)
    ensures 0 < r.attempts <= PinAttempts
    ensures r.result.Success? ==> IsPin(r.result.value)
    ensures r.result.Success? ==> r.pauses == r.attempts - 1
    ensures policy == RetryOnMissingPin ==> r.result != Failure(PinNotFound)
    ensures r.result == Failure(Exhausted) ==> r.attempts == PinAttempts && r.pauses == PinAttempts
  {
    var r := FetchFrom(0, policy, Sightings(polls));
    assert r.result.Success? ==> Sightings(polls)(r.attempts - 1) == Examine(polls(r.attempts - 1));
    r
  }

  /** The PIN returned is the one the last poll found; the fetch gives up
      exactly when none of the three polls settled it. */
  lemma FetchPinFinds(policy: Policy, polls: nat -> Poll)
    ensures FetchPin(policy, polls).result.Success? ==>
              Examine(polls(FetchPin(policy, polls).attempts - 1)) == PinFound(FetchPin(policy, polls).result.value)
    ensures FetchPin(policy, polls).result == Failure(Exhausted) <==>
              forall j :: 0 <= j < PinAttempts ==> Settle(policy, Examine(polls(j))).None?
  {
    var seen := Sightings(polls);
    assert FetchPin(policy, polls) == FetchFrom(0, policy, seen);
  }

  /** A PIN in the newest message of the first poll is returned at once,
      by either revision, without a pause. */
  lemma FirstPollFinds(policy: Policy, polls: nat -> Poll, pin: string)
    requires ListsNewest(polls(0)) && FindPin(NewestBody(polls(0))) == Some(pin)
    ensures FetchPin(policy, polls) == PinRun(Success(pin), 1, 0)
  {
    var seen := Sightings(polls);
    assert seen(0) == PinFound(pin);
    assert FetchPin(policy, polls) == FetchFrom(0, policy, seen);
  }

  /** A newest message without a PIN in the first poll makes the extractor
      raise "PIN not found" at once, while the bot revision polls again. */
  lemma FirstMailWithoutPin(polls: nat -> Poll)
    requires ListsNewest(polls(0)) && FindPin(NewestBody(polls(0))).None?
    ensures FetchPin(RaiseOnMissingPin, polls) == PinRun(Failure(PinNotFound), 1, 0)
    ensures FetchPin(RetryOnMissingPin, polls).attempts > 1
              || FetchPin(RetryOnMissingPin, polls).result == Failure(Exhausted)
  {
    MissingPinPolicies(polls, 0);
  }

  /** Under the raising policy, a message without a PIN after empty polls
      ends the loop at once. */
  lemma {:induction false} RaiseStopsAt(i: nat, seen: nat -> Sighting, j: nat)
    requires i <= j < PinAttempts
    requires forall k :: i <= k < j ==> seen(k) == NoEmail
    requires seen(j) == EmailWithoutPin
    ensures FetchFrom(i, RaiseOnMissingPin, seen) == PinRun(Failure(PinNotFound), j + 1, j)
    decreases j - i
  {
    if i < j {
      assert seen(i) == NoEmail;
      RaiseStopsAt(i + 1, seen, j);
    }
  }

  /** The standalone extractor stops at the first message without a PIN;
      the bot revision keeps polling past it. */
  lemma MissingPinPolicies(polls: nat -> Poll, j: nat)
    requires j < PinAttempts
    requires forall i :: 0 <= i < j ==> Examine(polls(i)) == NoEmail
    requires Examine(polls(j)) == EmailWithoutPin
    ensures FetchPin(RaiseOnMissingPin, polls) == PinRun(Failure(PinNotFound), j + 1, j)
    ensures FetchPin(RetryOnMissingPin, polls).attempts > j + 1
              || FetchPin(RetryOnMissingPin, polls).result == Failure(Exhausted)
  {
    var seen := Sightings(polls);
    forall k | 0 <= k < j ensures seen(k) == NoEmail {
      assert seen(k) == Examine(polls(k));
    }
    assert seen(j) == EmailWithoutPin;
    RaiseStopsAt(0, seen, j);
    assert FetchPin(RaiseOnMissingPin, polls) == FetchFrom(0, RaiseOnMissingPin, seen);
    var r := FetchFrom(0, RetryOnMissingPin, seen);
    assert FetchPin(RetryOnMissingPin, polls) == r;
    if r.result != Failure(Exhausted) {
      assert Settle(RetryOnMissingPin, seen(r.attempts - 1)).Some?;
      assert forall k :: 0 <= k <= j ==> Settle(RetryOnMissingPin, seen(k)).None?;
    }
  }

  /** When no poll finds a message without a PIN, the two revisions agree. */
  lemma {:induction false} PoliciesAgreeFrom(i: nat, seen: nat -> Sighting)
    requires i <= PinAttempts
    requires forall j :: i <= j < PinAttempts ==> seen(j) != EmailWithoutPin
    ensures FetchFrom(i, RetryOnMissingPin, seen) == FetchFrom(i, RaiseOnMissingPin, seen)
    decreases PinAttempts - i
  {
    if i < PinAttempts {
      PoliciesAgreeFrom(i + 1, seen);
    }
  }

  lemma PoliciesAgree(polls: nat -> Poll)
    requires forall j :: 0 <= j < PinAttempts ==> Examine(polls(j)) != EmailWithoutPin
    ensures FetchPin(RetryOnMissingPin, polls) == FetchPin(RaiseOnMissingPin, polls)
  {
    PoliciesAgreeFrom(0, Sightings(polls));
  }
}
