/** The contract side of the bot: which contracts are offered for renewal,
    the five-request renewal protocol with its token check, and the main
    run that renews every offered contract independently of the others. */
module Renewal {
  import opened Wrappers
  import opened Strings
  import opened Mail
  import opened LoginFlow
  import Bot

  // ---------------------------------------------------------------------
  // The contract table
  // ---------------------------------------------------------------------

  /** One row of the contract table: the stripped text of the id cell, if
      the row has one, and the text of the action container, if it has one. */
  datatype Row = Row(idCell: Option<string>, action: Option<string>)

  const NotYetRenewable: string := "Contract extension possible from"

  predicate IsRenewable(row: Row) {
    row.idCell.Some? && row.action.Some? && !Contains(row.action.value, NotYetRenewable)
  }

  /** The ids of the renewable rows, in table order. */
  function RenewableIds(rows: seq<Row>): (ids: seq<string>)
    ensures |ids| <= |rows|
    decreases |rows|
  {
    if |rows| == 0 then []
    else (if IsRenewable(rows[0]) then [rows[0].idCell.value] else []) + RenewableIds(rows[1..])
  }

  /** The filter keeps table order: it distributes over concatenation. */
  lemma {:induction false} RenewableIdsConcat(a: seq<Row>, b: seq<Row>)
    ensures RenewableIds(a + b) == RenewableIds(a) + RenewableIds(b)
    decreases |a|
  {
    if |a| == 0 {
      assert a + b == b;
    } else {
      var head := if IsRenewable(a[0]) then [a[0].idCell.value] else [];
      assert (a + b)[0] == a[0];
      assert (a + b)[1..] == a[1..] + b;
      assert RenewableIds(a + b) == head + RenewableIds(a[1..] + b);
      RenewableIdsConcat(a[1..], b);
      assert head + (RenewableIds(a[1..]) + RenewableIds(b)) == (head + RenewableIds(a[1..])) + RenewableIds(b);
    }
  }

  /** An id is listed exactly when some row carrying it is renewable. */
  lemma {:induction false} RenewableIdsMembers(rows: seq<Row>, x: string)
    ensures x in RenewableIds(rows) <==>
              exists i :: 0 <= i < |rows| && IsRenewable(rows[i]) && rows[i].idCell == Some(x)
    decreases |rows|
  {
    if |rows| > 0 {
      RenewableIdsMembers(rows[1..], x);
      if exists i :: 0 <= i < |rows[1..]| && IsRenewable(rows[1..][i]) && rows[1..][i].idCell == Some(x) {
        var i :| 0 <= i < |rows[1..]| && IsRenewable(rows[1..][i]) && rows[1..][i].idCell == Some(x);
        assert rows[i + 1] == rows[1..][i];
      }
      if exists i :: 0 <= i < |rows| && IsRenewable(rows[i]) && rows[i].idCell == Some(x) {
        var i :| 0 <= i < |rows| && IsRenewable(rows[i]) && rows[i].idCell == Some(x);
        if i > 0 {
          assert rows[1..][i - 1] == rows[i];
        }
      }
    }
  }

  /** A row whose action text announces a future extension date is never listed,
      whatever text surrounds the announcement. */
  lemma AnnouncedRowSkipped(id: string, before: string, after: string)
    ensures RenewableIds([Row(Some(id), Some(before + NotYetRenewable + after))]) == []
  {
    assert Contains(NotYetRenewable, NotYetRenewable) by {
      assert StartsWith(NotYetRenewable, NotYetRenewable);
    }
    ContainsWithin(before, NotYetRenewable, after, NotYetRenewable);
    assert before + NotYetRenewable + after == before + NotYetRenewable + after;
  }

  // ---------------------------------------------------------------------
  // Renewing one contract
  // ---------------------------------------------------------------------

  /** Seconds waited for the PIN message after the security dialog. */
  const WaitingTimeOfPin: nat := 15

  const ExtendPrefix: string := "kc2_customer_contract_details_extend_contract_"

  /** The `ident` field of the token request. */
  function Ident(order: string): (s: string)
    ensures StartsWith(s, ExtendPrefix) && s[|ExtendPrefix|..] == order
  {
    ExtendPrefix + order
  }

  /** What the portal does in one renewal, as far as the bot reads it. */
  datatype TokenJson = TokenJson(rs: Option<string>, tokenValue: Option<string>)

  datatype TokenReply = TokenReply(httpOk: bool, json: Option<TokenJson>)

  datatype RenewEnv = RenewEnv(polls: nat -> Poll, tokenReply: TokenReply, extendOk: bool)

  datatype RenewError =
    | PinUnavailable(cause: FetchError)
    | TokenHttpError
    | TokenNotJson
    | TokenRefused(rs: Option<string>)
    | TokenMissing
    | ExtendHttpError

  /** The requests and waits of one renewal, in the order they happen. */
  datatype Step =
    | ChooseOrder(order: string)
    | SecurityDialog(prefix: string)
    | Sleep(seconds: nat)
    | PinMail(attempts: nat, pauses: nat)
    | TokenRequest(pin: string, ident: string)
    | ExtendTerm(order: string, token: string)

  /** The position of each kind of step in the protocol. */
  function Stage(s: Step): nat {
    match s
    case ChooseOrder(_) => 0
    case SecurityDialog(_) => 1
    case Sleep(_) => 2
    case PinMail(_, _) => 3
    case TokenRequest(_, _) => 4
    case ExtendTerm(_, _) => 5
  }

  /** A trace is a prefix of the protocol: the `i`-th step is of the `i`-th kind. */
  predicate InProtocolOrder(steps: seq<Step>) {
    forall i :: 0 <= i < |steps| ==> Stage(steps[i]) == i
  }

  predicate TokenAccepted(reply: TokenReply) {
    reply.httpOk && reply.json.Some? && reply.json.value.rs == Some("success")
    && reply.json.value.tokenValue.Some?
  }

  datatype RenewRun = RenewRun(outcome: Result<(), RenewError>, steps: seq<Step>)

  /** The token exchange and the final request, once the PIN is known. */
  function ExchangeToken(order: string, pin: string, reply: TokenReply, extendOk: bool): (r: RenewRun)
    ensures 1 <= |r.steps| <= 2 && r.steps[0] == TokenRequest(pin, Ident(order))
    ensures |r.steps| == 2 <==> TokenAccepted(reply)
    ensures |r.steps| == 2 ==> r.steps[1] == ExtendTerm(order, reply.json.value.tokenValue.value)
    ensures r.outcome.Success? <==> TokenAccepted(reply) && extendOk
    ensures r.outcome == Failure(TokenHttpError) <==> !reply.httpOk
    ensures r.outcome.Failure? && r.outcome.error.TokenRefused? ==> r.outcome.error.rs != Some("success")
    ensures r.outcome.Failure? ==> !r.outcome.error.PinUnavailable?
  {
    var asked := [TokenRequest(pin, Ident(order))];
    if !reply.httpOk then RenewRun(Failure(TokenHttpError), asked)
    else match reply.json
      case None => RenewRun(Failure(TokenNotJson), asked)
      case Some(TokenJson(rs, tokenValue)) =>
        if rs != Some("success") then RenewRun(Failure(TokenRefused(rs)), asked)
        else match tokenValue
          case None => RenewRun(Failure(TokenMissing), asked)
          case Some(token) =>
            RenewRun(if extendOk then Success(()) else Failure(ExtendHttpError), asked + [ExtendTerm(order, token)])
  }

  /** The six-step protocol of one renewal, given how its PIN fetch ended:
      the order is chosen, the security dialog opened, the mail awaited and
      polled; a failed fetch stops there, and otherwise the PIN is sent with
      the order's identifier and, only for an accepted token, the term is
      extended. */
  predicate FollowsProtocol(order: string, fetch: PinRun, reply: TokenReply, extendOk: bool, r: RenewRun) {
    && InProtocolOrder(r.steps)
    && 4 <= |r.steps| <= 6
    && r.steps[0] == ChooseOrder(order) && r.steps[1] == SecurityDialog(ExtendPrefix)
    && r.steps[2] == Sleep(WaitingTimeOfPin) && r.steps[3] == PinMail(fetch.attempts, fetch.pauses)
    && (fetch.result.Failure? ==> |r.steps| == 4 && r.outcome == Failure(PinUnavailable(fetch.result.error)))
    && (fetch.result.Success? ==> 5 <= |r.steps| && r.steps[4] == TokenRequest(fetch.result.value, Ident(order)))
    && (|r.steps| == 6 <==> fetch.result.Success? && TokenAccepted(reply))
    && (|r.steps| == 6 ==> r.steps[5] == ExtendTerm(order, reply.json.value.tokenValue.value))
    && (r.outcome.Success? <==> |r.steps| == 6 && extendOk)
    && (r.outcome.Failure? && r.outcome.error.TokenRefused? ==> r.outcome.error.rs != Some("success"))
  }

  /** The renewal once the PIN fetch has ended with `fetch`. */
  function RenewAfterFetch(order: string, fetch: PinRun, reply: TokenReply, extendOk: bool): (r: RenewRun)
    ensures FollowsProtocol(order, fetch, reply, extendOk, r)
  {
    var polled := [ChooseOrder(order), SecurityDialog(ExtendPrefix), Sleep(WaitingTimeOfPin),
                   PinMail(fetch.attempts, fetch.pauses)];
    match fetch.result
    case Failure(e) => RenewRun(Failure(PinUnavailable(e)), polled)
    case Success(pin) =>
      var rest := ExchangeToken(order, pin, reply, extendOk);
      var steps := polled + rest.steps;
      assert steps[4] == rest.steps[0];
      assert |rest.steps| == 2 ==> steps[5] == rest.steps[1];
      assert Stage(rest.steps[0]) == 4;
      RenewRun(rest.outcome, steps)
  }

  /** `renew`: the bot's PIN fetch, which polls again after a message
      without a PIN, followed by the rest of the protocol. */
  function Renew(order: string, env: RenewEnv): (r: RenewRun)
    ensures FollowsProtocol(order, FetchPin(RetryOnMissingPin, env.polls), env.tokenReply, env.extendOk, r)
  {
    RenewAfterFetch(order, FetchPin(RetryOnMissingPin, env.polls), env.tokenReply, env.extendOk)
  }

  /** Without `rs == "success"` in the token reply the term is never extended. */
  lemma RefusedTokenNeverExtends(order: string, env: RenewEnv)
    requires env.tokenReply.json.Some? ==> env.tokenReply.json.value.rs != Some("success")
    ensures forall i :: 0 <= i < |Renew(order, env).steps| ==> !Renew(order, env).steps[i].ExtendTerm?
    ensures Renew(order, env).outcome.Failure?
  {
    var steps := Renew(order, env).steps;
    forall i | 0 <= i < |steps|
      ensures !steps[i].ExtendTerm?
    {
      assert Stage(steps[i]) == i;
    }
  }

  // ---------------------------------------------------------------------
  // The main run
  // ---------------------------------------------------------------------

  /** The seven settings read from the environment. */
  datatype Settings = Settings(
    username: Option<string>, password: Option<string>,
    captchaUserId: Option<string>, captchaApiKey: Option<string>,
    emailHost: Option<string>, emailUsername: Option<string>, emailPassword: Option<string>)

  function SettingValues(s: Settings): (vs: seq<Option<string>>)
    ensures |vs| == 7
  {
    [s.username, s.password, s.captchaUserId, s.captchaApiKey, s.emailHost, s.emailUsername, s.emailPassword]
  }

  /** Python truthiness of an optional string: present and non-empty. */
  predicate IsSet(v: Option<string>) {
    v.Some? && v.value != ""
  }

  predicate AllSet(vs: seq<Option<string>>) {
    forall i :: 0 <= i < |vs| ==> IsSet(vs[i])
  }

  /** Everything the run meets: the settings, the login exchanges, the
      contract table before and after renewing, and the portal's behaviour
      during the renewal of the `j`-th listed contract. */
  datatype BotEnv = BotEnv(
    settings: Settings,
    exchanges: nat -> Exchange,
    contracts: seq<Row>,
    renewals: nat -> RenewEnv,
    contractsAfter: seq<Row>)

  datatype Report = Report(order: string, outcome: Result<(), RenewError>)

  datatype BotRun =
    | SettingsMissing
    | LoginRaised(error: LoginError)     // an exception escapes the run
    | LoginFailed
    | Completed(sessId: string, reports: seq<Report>, stillRenewable: seq<string>)

  /** The `try`/`except` loop over the listed contracts, starting at list
      position `k`; `renew(order, j)` is how the renewal at position `j` ends. */
  function RenewEach(orders: seq<string>, renew: (string, nat) -> Result<(), RenewError>, k: nat)
    : (reports: seq<Report>)
    ensures |reports| == |orders|
    ensures forall j :: 0 <= j < |orders| ==> reports[j] == Report(orders[j], renew(orders[j], k + j))
    decreases |orders|
  {
    if |orders| == 0 then []
    else [Report(orders[0], renew(orders[0], k))] + RenewEach(orders[1..], renew, k + 1)
  }

  function RunBot(env: BotEnv): (r: BotRun)
    ensures r == SettingsMissing <==> !AllSet(SettingValues(env.settings))
    ensures r.LoginRaised? ==> Login(env.exchanges).outcome == Failure(r.error)
    ensures r.LoginFailed? ==> Login(env.exchanges).outcome == Success(Rejected)
    ensures r.Completed? ==>
              && Login(env.exchanges).outcome == Success(r.sessId) && r.sessId != Rejected
              && |r.reports| == |RenewableIds(env.contracts)|
              && (forall j :: 0 <= j < |r.reports| ==>
                    r.reports[j].order == RenewableIds(env.contracts)[j]
                    && r.reports[j].outcome == Renew(RenewableIds(env.contracts)[j], env.renewals(j)).outcome)
              && r.stillRenewable == RenewableIds(env.contractsAfter)
  {
    if !AllSet(SettingValues(env.settings)) then SettingsMissing
    else
      match Login(env.exchanges).outcome
      case Failure(e) => LoginRaised(e)
      case Success(sessId) =>
        if sessId == Rejected then LoginFailed
        else
          var orders := RenewableIds(env.contracts);
          var renew := (order: string, j: nat) => Renew(order, env.renewals(j)).outcome;
          Completed(sessId, RenewEach(orders, renew, 0), RenewableIds(env.contractsAfter))
  }

  /** The process status: an escaping exception ends the interpreter with 1. */
  function ExitCode(r: BotRun): (code: int)
    ensures code == 0 <==> r.Completed?
    ensures code == 1 <==> !r.Completed?
  {
    if r.Completed? then Bot.ExitSuccess else Bot.ExitFailure
  }

  /** A failed renewal of one contract neither stops the others nor changes
      the exit status: once logged in, the run ends with 0. */
  lemma FailuresDoNotStopTheRun(env: BotEnv, j: nat)
    requires AllSet(SettingValues(env.settings))
    requires Login(env.exchanges).outcome.Success? && Login(env.exchanges).outcome.value != Rejected
    requires j < |RenewableIds(env.contracts)|
    ensures ExitCode(RunBot(env)) == 0
    ensures |RunBot(env).reports| == |RenewableIds(env.contracts)|
    ensures RunBot(env).reports[j].outcome == Renew(RenewableIds(env.contracts)[j], env.renewals(j)).outcome
  {
  }
}
