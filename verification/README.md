# euserv renewal bot — a Dafny model of its decision core

The bot keeps a free virtual server at a hosting provider alive. It logs in
to the customer portal, solving an arithmetic image CAPTCHA with help from a
remote recognition service. It then lists the contracts that may be extended
now. For each one it triggers the provider's security check, which e-mails a
six-digit PIN. It polls a mailbox for that PIN, trades the PIN for a one-time
token, and submits the token to extend the contract.

This project models the decision logic of those steps as pure Dafny functions
over abstract inputs:
- a web page or HTTP reply is a string;
- a table row, a form or a JSON reply is a record;
- a mailbox poll is a value;
- a retry loop takes a function `nat -> outcome` that gives what its `i`-th attempt meets.

Every sleep becomes a counted pause. The modules follow the program:

| module | file | what it models |
|---|---|---|
| `Wrappers`, `Strings`, `Scan` | `wrappers.dfy`, `strings.dfy`, `scan.dfy` | `Option`/`Result`; Python's `in`, `str(n)` and `bytes.split()`; `lower()`, `upper()` and the regex class `\w` on ASCII characters only; the leftmost search behind `re.search`, BeautifulSoup's `find` and early-return loops |
| `Arithmetic`, `ArithmeticExamples` | `arithmetic.dfy`, `arithmetic_examples.dfy` | the restricted evaluator of CAPTCHA texts ("8+5" gives 13): tokenizer, precedence parser, floor division, and the evaluator's test cases |
| `Captcha` | `captcha.dfy` | how the recognition service's JSON reply becomes an answer or an error |
| `LoginFlow` | `login.dfy` | the bot's login attempt (session id, success indicators, CAPTCHA round) and the three-attempt retry decorator |
| `Mail` | `mail.dfy` | the newest matching message, its plain-text body, the `PIN:\s*\n?(\d{6})` scan, and the three-poll loop in both of its revisions |
| `Renewal` | `renewal.dfy` | the renewable-contract filter, the six-step renewal protocol with its token check, and the bot's main run with per-contract isolation |
| `Script` | `script.dfy` | the standalone script: its login check, the free-VPS row and renewal link, the PIN form payload, the confirmation check, and its main run |
| `Hotp` | `hotp.dfy` | HOTP and TOTP codes: section 5.3 of RFC 4226 and section 4 of RFC 6238 |
| `Bot` | `bot.dfy` | the run controller of the newest revision, as far as its tests fix it: exit statuses, log, initial state, cleanup, published login constants |

Two revisions of the PIN fetch are modelled by one loop with a `Policy`:
- `Euserv_Renewal.py` waits and polls again when the newest message has no PIN (`RetryOnMissingPin`);
- `pin_extractor.py` raises at once in that case (`RaiseOnMissingPin`).

Python's `eval` on a CAPTCHA text cannot be modelled. The model uses a
restricted evaluator instead. The newer revision's test suites fix the
following for its `safe_eval_math`:
- non-negative integer literals, `+ - * /` and parentheses;
- `*` binds tighter than `+` and `-`;
- a positive quotient is rounded down ("7/2" gives 3);
- `None` for letters, for empty or blank text and for a division by zero.

The tests do not fix the following points; they are the model's own choices:
- `/` binds like `*`, and every operator associates to the left, as in Python's grammar;
- a negative quotient is also rounded towards negative infinity, as Python's `//` does, so "7/(3-5)" gives -4, not the -3 of truncation;
- unary minus is rejected, although Python accepts it (`-3+5` gives 2 there);
- a literal with a leading zero ("07") is rejected, as Python's grammar rejects it.

Where the code and the program's documented behaviour differ, the model follows
the code:
- A CAPTCHA error or a page without a session id raises inside `login`. The
  retry decorator does not catch it, so the run ends with status 1
  (`Renewal.RunBot`, `LoginRaised`). It is not retried.
- `main` in `Euserv_Renewal.py` ends with status 0 once logged in, even when
  every renewal failed or no contract was renewable. Status 1 comes only from
  missing settings, a failed login or an escaping exception. The 0/1/2
  statuses of the newest revision are modelled in `Bot` from its tests only.
- An empty contract list is not an error. The post-renewal listing is still
  made.
- This revision of `Euserv_Renewal.py` has no second-factor step, no OCR tier
  and no clean-up of the recognised text before evaluation.

## Model

| member | source | states |
|---|---|---|
| Scan.FirstFrom | Euserv_Renewal.py:130 | the reported position matches, no earlier position does, and `None` means no position in range matches (leftmost-match semantics of `re.search`) |
| Scan.FirstFromUnique | Euserv_Renewal.py:130 | any matching position with no match before it is the one reported |
| Strings.ContainsIff | Euserv_Renewal.py:165 | Python's `sub in s` holds exactly when `sub` occurs at some index |
| Strings.WordsOfJoin | Euserv_Renewal.py:116 | splitting a space-separated list of message numbers on whitespace gives the list back |
| Arithmetic.Tokenize | tests/test_safe_eval.py:48-54 | a text that tokenizes uses only digits, blanks, the four operators and parentheses |
| Arithmetic.FloorDiv | tests/test_safe_eval.py:33-35 | the quotient is rounded down, as the tests fix for "7/2"; for a negative quotient the rounding towards negative infinity is the model's choice, after Python's `//`: `q*b <= a < q*b + b` for a positive divisor, mirrored for a negative one |
| Arithmetic.Evaluate | tests/test_safe_eval.py:48-54 | a text the evaluator accepts uses only digits, blanks, the four operators and parentheses |
| Arithmetic.EvaluateRejects | tests/test_safe_eval.py:48-66 | a text with a letter, an empty text and a blank-only text evaluate to `None`; an accepted text uses only the expression alphabet |
| Arithmetic.TokenizeShow | tests/test_safe_eval.py:41-46 | the tokenizer reads the printed form of any expression back as that expression's tokens, whatever non-digit text follows |
| Arithmetic.ParseTokens | tests/test_safe_eval.py:41-46 | the parser maps the token sequence of any expression back to exactly that expression |
| Arithmetic.EvaluateShow | tests/test_safe_eval.py:37-46 | round trip through text: the evaluator gives, for the printed form of any expression, that expression's value |
| Arithmetic.EvaluateBinaryText | tests/test_safe_eval.py:17-35 | `a op b` evaluates to the operation's value for all literals; a zero divisor gives `None` |
| Arithmetic.ProductBindsTighter | tests/test_safe_eval.py:37-39 | for all literals, `a+b*c` and `a-b*c` evaluate to `a + (b*c)` and `a - (b*c)` |
| Arithmetic.SubtractionAssociatesLeft | tests/test_safe_eval.py:21-23 | for all literals, `a-b-c` evaluates to `(a-b)-c`, negative results included; the left association is Python's, as the tests use single operators only |
| Arithmetic.ParenthesesGroupFirst | tests/test_safe_eval.py:41-46 | a parenthesised operation followed by `*c` multiplies that operation's value by `c` |
| Arithmetic.EvaluateNumeral | tests/test_safe_eval.py:68-70 | a lone decimal literal evaluates to its own value |
| ArithmeticExamples.Addition | tests/test_renewal.py:20-22 | "3+5" gives 8 and "10+20" gives 30 |
| ArithmeticExamples.Subtraction | tests/test_renewal.py:24-26 | "10-3" gives 7, "100-50" gives 50 and "3-10" gives -7 (the last from `ArithmeticExamples.Case3Minus10`) |
| ArithmeticExamples.Case3Minus10 | tests/test_safe_eval.py:72-74 | "3-10" gives the negative result -7 |
| ArithmeticExamples.Multiplication | tests/test_renewal.py:28-30 | "4*2" gives 8 and "7*8" gives 56, and "4*5" gives 20 (from `ArithmeticExamples.Case4Times5`) |
| ArithmeticExamples.Case4Times5 | tests/test_safe_eval.py:25-27 | "4*5" gives 20 |
| ArithmeticExamples.IntegerDivision | tests/test_safe_eval.py:29-35 | "10/2" and "15/3" give 5, "7/2" gives 3, and "10/0" and "1/0" give `None` |
| ArithmeticExamples.ProductBeforeSum | tests/test_safe_eval.py:37-39 | "2+3*4" gives 14 |
| ArithmeticExamples.ProductBeforeSumAgain | tests/test_renewal.py:36-37 | "3+5*2" gives 13 |
| ArithmeticExamples.ProductBeforeDifference | tests/test_renewal.py:38 | "10-2*3" gives 4 |
| ArithmeticExamples.Parentheses | tests/test_safe_eval.py:41-46 | "(2+3)*4" gives 20 |
| ArithmeticExamples.LoneLiteral | tests/test_safe_eval.py:68-70 | "42" gives 42 |
| ArithmeticExamples.FloorDivisionOfNegative | tests/test_safe_eval.py:33-35 | under the model's floor division a quotient with a negative divisor rounds down: "(7/(3-5))" gives -4 (the tests fix only positive quotients) |
| ArithmeticExamples.Rejections | tests/test_safe_eval.py:48-66 | "abc", "3+abc", "invalid", "" and "   " give `None` |
| Captcha.SolveCaptcha | Euserv_Renewal.py:84-97 | status "error" fails with the reply's message; otherwise a missing or empty result fails; an answer exists exactly when the result text evaluates, and it is the decimal text of the value |
| Captcha.AnswerIsStable | renewal_script.py:46-50 | submitting the answer text itself as the recognised text gives the same non-negative answer |
| LoginFlow.LoginSuccessIff | Euserv_Renewal.py:165 | a reply counts as logged in exactly when it contains "Hello" or "Confirm or change your customer data here" |
| LoginFlow.SessIdAt | Euserv_Renewal.py:154 | a capture at a position is a non-empty run of word characters |
| LoginFlow.ExtractSessId | Euserv_Renewal.py:154-156 | a session id is found exactly when the pattern matches somewhere; it is the capture of the leftmost match, a non-empty word and never "-1" |
| LoginFlow.LoginOnce | Euserv_Renewal.py:153-187 | a page without a session id raises; otherwise the attempt logs in (with the scraped id) exactly when the reply shows an indicator, or shows the CAPTCHA prompt, the CAPTCHA is solved and the second reply lacks the prompt; it raises "no session id" exactly when the page has none, and otherwise raises exactly when the CAPTCHA path is taken and the CAPTCHA fails; "-1" exactly when there is an id, no indicator, and either no prompt or a solved CAPTCHA whose reply still shows the prompt |
| LoginFlow.ImmediateSuccessSkipsCaptcha | Euserv_Renewal.py:185-187 | with an indicator in the first reply, the CAPTCHA service and the second reply do not affect the outcome |
| LoginFlow.CaptchaPathChecksOnlyThePrompt | Euserv_Renewal.py:170-184 | after a solved CAPTCHA, the attempt logs in exactly when the second reply lacks the prompt, with no indicator re-checked |
| LoginFlow.RetryFrom | Euserv_Renewal.py:51-59 | from attempt `i` on: every attempt before the last said "-1"; a result other than "-1" is the last attempt's result; "-1" only after all attempts said "-1"; one pause per attempt after the first |
| LoginFlow.LoginRetry | Euserv_Renewal.py:47-61 | at most `max_retry` calls; the first result other than "-1" (or the first error) is returned; "-1" exactly when every attempt said "-1", and then after all `max_retry` calls; `calls - 1` pauses |
| LoginFlow.Login | Euserv_Renewal.py:145-146 | at most three attempts, and a session id returned is the one scraped in the last attempt made |
| LoginFlow.FirstAttemptSuffices | Euserv_Renewal.py:51-57 | a first attempt that logs in is the only call, with no pause |
| Mail.Walk | Euserv_Renewal.py:123 | the walk starts with the message itself |
| Mail.FirstPlainIn | Euserv_Renewal.py:123-126 | `None` exactly when no message of the walk is plain text; otherwise the payload of the first plain-text message |
| Mail.ExtractBody | Euserv_Renewal.py:121-128 | a single part gives its payload; a multipart message gives "" when no part is plain text, and otherwise the payload of a plain-text part of its walk |
| Mail.WalkAgrees | Euserv_Renewal.py:122-126 | the first plain part of the flattened walk equals a structural depth-first search of the message tree |
| Mail.MultipartBody | pin_extractor.py:34-41 | the body of a multipart message is the first plain-text part found depth-first, or "" |
| Mail.PinAt | Euserv_Renewal.py:130 | a capture is six ASCII digits, preceded by the tag "PIN:" in any letter case |
| Mail.FindPin | Euserv_Renewal.py:130-132 | a PIN is found exactly when the pattern matches at some position; it is six digits and comes from the leftmost match |
| Mail.FindPinAfter | pin_extractor.py:43-48 | after text free of the letter p, a tag in any case, any whitespace and six digits give those digits, whatever follows |
| Mail.PinOnNextLine | pin_extractor.py:43 | "PIN:" and the digits on the next line give the digits |
| Mail.NoPinWithoutTag | pin_extractor.py:43-50 | a body without `p` or `P` has no PIN |
| Mail.LatestId | Euserv_Renewal.py:116 | the chosen number is a whitespace-free word, and there is none exactly when the answer has no word |
| Mail.LatestIdOfList | pin_extractor.py:28 | for a listed answer the chosen number is the last one |
| Mail.Examine | Euserv_Renewal.py:109-134 | an unreachable mailbox raises; a status other than OK or an empty answer means no mail; a listed answer without a number or whose newest message is missing raises; otherwise the poll reports the PIN in the newest message's body, or a message without a PIN exactly when its body has none |
| Mail.FirstPollFinds | Euserv_Renewal.py:130-134 | a PIN in the newest message of the first poll is returned by either revision after one poll and no pause |
| Mail.FirstMailWithoutPin | pin_extractor.py:43-50 | a newest message without a PIN in the first poll makes the extractor raise "PIN not found" after one poll, while the bot revision polls again or gives up |
| Mail.OnlyLatestMessageCounts | Euserv_Renewal.py:115-119 | older messages in the answer do not affect the poll |
| Mail.Settle | pin_extractor.py:45-50 | a poll ends the loop unless it found no mail, or a message without a PIN under the bot's retrying policy; the raising policy alone ends with "PIN not found"; a PIN returned is the one the poll found |
| Mail.FetchFrom | Euserv_Renewal.py:107-142 | at most three attempts; earlier attempts settled nothing; giving up happens exactly when no attempt settled, after three attempts and three pauses; otherwise the last attempt decided the result |
| Mail.FetchPin | pin_extractor.py:18-59 | between one and three polls; a returned PIN is six digits, after `attempts - 1` pauses; the bot revision never raises "no PIN in the message"; giving up costs three polls and three pauses |
| Mail.FetchPinFinds | Euserv_Renewal.py:131-142 | the returned PIN is the one the last poll found, and the fetch gives up exactly when no poll settled it |
| Mail.RaiseStopsAt | pin_extractor.py:45-57 | under the raising policy, empty polls followed by a message without a PIN end the loop at that poll with "PIN not found" |
| Mail.MissingPinPolicies | pin_extractor.py:45-57 | a message without a PIN stops the extractor at that poll with an error, while the bot revision polls on |
| Mail.PoliciesAgreeFrom | pin_extractor.py:18-59 | from any attempt on, the two revisions behave the same when no poll meets a message without a PIN |
| Mail.PoliciesAgree | Euserv_Renewal.py:107-142 | the two revisions agree whenever no poll meets a message without a PIN |
| Renewal.RenewableIds | Euserv_Renewal.py:199-209 | at most one id per row |
| Renewal.RenewableIdsConcat | Euserv_Renewal.py:199-207 | the filter keeps table order: it distributes over concatenation |
| Renewal.RenewableIdsMembers | Euserv_Renewal.py:200-207 | an id is listed exactly when some row with that id has an action container without "Contract extension possible from" |
| Renewal.AnnouncedRowSkipped | Euserv_Renewal.py:206 | a row announcing a future extension date is never listed |
| Renewal.Ident | Euserv_Renewal.py:241 | the ident is the extension prefix followed by exactly the order id |
| Renewal.ExchangeToken | Euserv_Renewal.py:238-258 | the token request carries the PIN and ident; the extension is requested exactly when the reply is OK JSON with `rs == "success"` and a token, and then carries that token; success needs that and a successful final request |
| Renewal.RenewAfterFetch | Euserv_Renewal.py:212-261 | for a given PIN fetch: the requests follow the order choose, security dialog with the extension prefix, 15-second wait, PIN mail, token, extend; a PIN failure stops after the mail step with that failure; with a PIN the token request carries it and the order's ident; all six steps happen exactly when a PIN arrived and the token was accepted, and the extension carries that token; success exactly when the extension was made and succeeded |
| Renewal.Renew | Euserv_Renewal.py:225-235 | the same protocol, with the PIN fetched by the bot's retrying mail loop from the renewal's polls |
| Renewal.RefusedTokenNeverExtends | Euserv_Renewal.py:246-248 | without `rs == "success"` the term is never extended and the renewal fails |
| Renewal.RenewEach | Euserv_Renewal.py:294-303 | one report per listed contract, in list order, each the outcome of that contract's own renewal at its position |
| Renewal.RunBot | Euserv_Renewal.py:275-307 | missing settings exactly when one of the seven is unset or empty; a login error or "-1" ends the run; otherwise every renewable contract is renewed in table order and the post-renewal listing is reported |
| Renewal.ExitCode | Euserv_Renewal.py:277-286 | status 0 exactly when the run got past the login, 1 otherwise |
| Renewal.FailuresDoNotStopTheRun | Euserv_Renewal.py:294-306 | once logged in, a failing renewal neither stops later contracts nor changes the status 0 |
| Script.ScriptLogin | renewal_script.py:55-110 | a missing form or form action fails; without the CAPTCHA prompt the credentials reply is returned unchecked; with it, success exactly when the image, the answer and the answer form exist and the final reply contains both "Control Panel" and "Logout", and then the final reply is returned; each missing piece fails with its own error |
| Script.NoCaptchaNoCheck | renewal_script.py:109-110 | without the prompt any reply, however empty, is taken as logged in |
| Script.StricterThanTheBot | renewal_script.py:103-104 | a reply that passes the bot's CAPTCHA check but lacks "Logout" is rejected by the script |
| Script.RenewLink | renewal_script.py:134 | none is found exactly when no link of the row mentions "renew"; otherwise the result is the first link of the row that mentions it |
| Script.RowTrigger | renewal_script.py:130-147 | the free-VPS row triggers a renewal exactly when one of its links mentions "renew", and then with a link of the row that mentions it |
| Script.FindFreeVps | renewal_script.py:128-149 | it raises exactly when no row mentions "vServer FREE"; otherwise the first such row alone decides |
| Script.FindFreeVpsAt | renewal_script.py:128-147 | the first free-VPS row is the one used |
| Script.LaterRowsIgnored | renewal_script.py:128-147 | rows after the first free-VPS row do not affect the result |
| Script.AddHidden | renewal_script.py:168-170 | the keys are the old keys plus the hidden names; untouched keys keep their values; each name ends with the value of its last hidden input |
| Script.BuildPayload | renewal_script.py:165-170 | the keys are the PIN field and the hidden names; the PIN stays unless a hidden input shares its name; each hidden name holds its last value |
| Script.HiddenFieldOverwritesPin | renewal_script.py:165-170 | a hidden input named like the PIN field replaces the PIN |
| Script.PinForm | renewal_script.py:158-159 | the form chosen is the first whose action mentions "pin_check"; none is chosen exactly when no action does |
| Script.SubmitPin | renewal_script.py:152-180 | success exactly when the PIN form and its text input exist and the lowered reply contains "renewal was successful"; what is posted is the merged payload |
| Script.ConfirmationIgnoresCase | renewal_script.py:177 | the confirmation is recognised in any letter case |
| Script.RunScript | renewal_script.py:183-198 | missing settings exactly when one is unset or empty; a failed login and a missing free-VPS row abort with their own errors before any mail poll; the mailbox is polled exactly when login succeeded and a renewal link was found; no link ends quietly; the run renews exactly when the link was found, the PIN arrived and its submission succeeded, with that PIN, the submitted payload and the poll count; a PIN or submission failure aborts with that error |
| Script.ScriptExitCode | renewal_script.py:185-187 | status 1 exactly for missing settings or an escaping exception |
| Hotp.PadKey | tests/test_totp.py:53-57 | the padded key is the key followed by fewer than eight `=`, to a multiple of eight; the tests' 16-character keys need no padding, so the padding rule is the base32 decoder's requirement, not fixed by the tests |
| Hotp.NormalKeyIgnoresCase | tests/test_totp.py:53-57 | the letter case of the secret never reaches the decoder |
| Hotp.AlignedKeyUnpadded | tests/test_totp.py:22 | a secret of a multiple of eight characters is not padded |
| Hotp.BigEndianValue | tests/test_totp.py:24-29 | the big-endian bytes of a number that fits read back as that number |
| Hotp.CounterBlockRoundTrip | tests/test_totp.py:24-29 | the eight-byte counter block reads back as the counter |
| Hotp.Truncate | tests/test_totp.py:24-29 | dynamic truncation yields a 31-bit value |
| Hotp.FixedDecimalValue | tests/test_totp.py:24-29 | zero padding to six digits keeps the value of a number below one million |
| Hotp.FixedDecimalIsPaddedNumeral | tests/test_totp.py:24-29 | the padded code is `str(n)` with leading zeros |
| Hotp.HotpCode | tests/test_totp.py:24-29 | a code exists exactly when the secret decodes; it has six digits, and its value is the truncated HMAC of the counter block modulo one million |
| Hotp.HotpIgnoresKeyCase | tests/test_totp.py:53-57 | a lower-cased secret gives the same code |
| Hotp.TotpCode | tests/test_renewal.py:8-14 | a code has six digits, and it is the HOTP of the number of whole 30-second steps |
| Hotp.SameWindowSameCode | tests/test_renewal.py:8-14 | all instants of one 30-second window give the same code |
| Hotp.RfcDigestTruncates | tests/test_totp.py:24-29 | the last byte 0x5a of the worked digest of section 5.4 of RFC 4226 selects offset 10, which truncates to 0x50ef7f19 |
| Hotp.RfcCodeDigits | tests/test_totp.py:24-29 | 0x50ef7f19 gives the six-digit code "872921" |
| Hotp.RfcTruncationExample | tests/test_totp.py:24-29 | the worked digest of section 5.4 of RFC 4226 truncates to 0x50ef7f19 and gives "872921" |
| Bot.ExitStatusesDistinct | tests/test_renewal.py:149-152 | success, failure and skipped are 0, 1 and 2, pairwise distinct |
| Bot.Fresh | tests/test_renewal.py:52-58 | a fresh bot has an empty log, login attempt 1, and no session, session id or recogniser |
| Bot.Log | tests/test_renewal.py:60-64 | logging appends exactly one entry, which contains the message and the level's marker, and nothing else changes |
| Bot.LevelMarkers | tests/test_renewal.py:66-72 | a success entry carries the check mark, an error entry the cross |
| Bot.LogTwice | tests/test_renewal.py:66-72 | two calls leave two entries, in call order |
| Bot.Cleanup | tests/test_renewal.py:130-143 | a present session is closed once and forgotten; without one nothing is closed and nothing changes |
| Bot.CleanupIdempotent | tests/test_renewal.py:138-143 | a second cleanup closes nothing and changes nothing |
| Bot.LoginConstants | tests/test_renewal.py:159-165 | "Hello" is an indicator, there are at least two, and the CAPTCHA prompt contains "captcha" in lower case |
| Bot.OpensWithIndicator | tests/test_renewal.py:78-89 | a reply that opens with either indicator is a login success |
| Bot.LoginSuccessExamples | tests/test_renewal.py:78-89 | "Hello, user!" and the customer-data text are successes, "" is not |
| Bot.NoIndicatorLetters | tests/test_renewal.py:84-86 | a text with neither `H` nor `C` is not a success |
| Bot.FailureRepliesAreNoSuccess | tests/test_renewal.py:85-86 | "Login failed" and "Error occurred" are not successes |
| Bot.PlainTextBody | tests/test_renewal.py:95-104 | a plain-text message's body is its text, the empty text included |

## Left out

- HTTP sessions, headers, cookies and `raise_for_status`: each request's reply is an input. A failed request that the model does not list as an error is not modelled.
- Renewal.RunBot: a failing contract-page request in `get_servers` (Euserv_Renewal.py:196) raises out of `main`; the model treats both listings as given rows.
- Renewal.Renew: network errors of the first two requests, which the per-contract `except` would catch, are not modelled; only the token and final requests can fail.
- Script.RunScript: a failing request for the renewal link's page (renewal_script.py:141-142) is not modelled; the page's forms are an input.
- HTML scraping by BeautifulSoup: rows, links, forms and inputs are records, and the CSS selectors are not modelled.
- IMAP I/O, MIME parsing, payload decoding and the date in the search criterion: a poll is a value, and a message is a tree of decoded parts. A body that fails to decode as UTF-8 is not modelled.
- Python's `eval` (Euserv_Renewal.py:95, renewal_script.py:48): general code execution. It is replaced by the restricted evaluator that the test suites specify.
- Captcha.SolveCaptcha: in `Euserv_Renewal.py:95` and `renewal_script.py:48`, `str(eval(text))` on a division gives float text ("10/2" gives "5.0"). The model gives the integer answer of the newer evaluator.
- The remote CAPTCHA call, the image download and base64: only the JSON reply is modelled.
- Hotp.HotpCode: HMAC-SHA-1 and base32 decoding are parameters, so the key-dependent test (tests/test_totp.py:45-51) is not stated.
- The statistical uniqueness test (tests/test_totp.py:38-43) is not a provable property.
- The consistency test (tests/test_totp.py:31-36) holds of every Dafny function, so it gets no lemma.
- Hotp.TotpCode: a counter of 2^64 or more gives `None`. Python's 64-bit packing would raise there.
- Mail.FindPin: `\d`, `\s` and IGNORECASE are restricted to ASCII. Python also accepts other Unicode digits, whitespace and case pairs.
- LoginFlow.SessIdAt: `\w` (Euserv_Renewal.py:154) is restricted to ASCII letters, digits and `_`. Python's `\w` on a str pattern also matches other Unicode letters and digits, so a session id containing them is not captured here.
- LoginFlow.ExtractSessId: inherits the ASCII-only `\w` of `LoginFlow.SessIdAt`.
- Script.SubmitPin: `.lower()` (renewal_script.py:177) lowers ASCII letters only. Python also lowers other Unicode letters, which could matter only for a reply whose confirmation is spelled with non-ASCII letters.
- Script.ConfirmationIgnoresCase: the case insensitivity is ASCII case only, as for `Script.SubmitPin`.
- Hotp.NormalKey: `.upper()` raises ASCII letters only. Python also raises other Unicode letters, which a base32 decoder rejects in either case.
- Real sleep durations and the clock: pauses are counted, not timed. The 5-second pause between contracts and the 15-second wait before the post-renewal listing in `main` are not counted.
- Log text and `print` output: only the post-renewal list of still-renewable ids is kept.
- Environment variables: the seven settings are an input record.
- The second-factor prompt containing "PIN" (tests/test_renewal.py:161), the URL constants (tests/test_renewal.py:154-157), `validate_config` and `prewarm_ocr`: their definitions are not part of this model.
- The log markers of the newest revision are fixed only for the success and error levels its tests check. The warning marker and the unmarked info level are this model's choice.
