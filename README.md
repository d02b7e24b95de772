# Login-error classifier of a Selenium login test harness

This project models the logic inside a browser-driven login test harness
(`test_login.py`). The harness drives a web application's login form with
Selenium. Most of it is browser I/O. What is modelled here is the logic
that decides outcomes:

- **The exception taxonomy and messages** (module `LoginErrors`). There are
  five exception classes: `LoginErrorMessageMismatch`, `ErrorTypeNotFound`,
  `CheckLoginStatusError`, `LoginError` and `LogoutError`. `Message` gives
  the text each one's `__str__` returns. A Selenium exception that reaches
  the caller unwrapped is `Uncaught`.
- **The outcome classifier** (module `Classifier`). A closed, ordered table
  maps the error types `email`, `password` and `empty` to the literal
  banner text each one expects. `Classify` compares an observed banner
  against that table and returns `Ok(true)`, `ErrorTypeNotFound` or
  `LoginErrorMessageMismatch`. It never returns false.
- **The abstract browser** (module `Steps`). Each interaction with the
  browser is a `Step`: a URL load, a bounded wait, typing into a field or a
  click. Each step is answered with `StepOk` or `StepFail(cause)`.
  `RunSteps` runs a block of steps in order and stops at the first failure,
  which is how each page operation behaves inside its `try` block.
- **The page objects** (module `Pages`). The `Driver` class holds three
  things: the answers the browser will give to the coming steps, the error
  banner as currently rendered, and a ghost trace of the steps performed.
  `LoginPage.Login`, `LoginPage.IsLoginErrorMessage`,
  `LoginPage.LoginAndCheckError`, `HomePage.IsLoggedIn` and
  `HomePage.Logout` are methods that perform their steps one at a time and
  return early on the first failure. Each one is proved to agree with a
  specification function (`LoginSpec`, `IsLoginErrorMessageSpec`, …). That
  function gives the result, the steps performed and the answers left.
- **Properties of the page operations** (module `PageProperties`). Lemmas
  about those specification functions cover step order, short-circuiting,
  which exception kind each failure becomes, and the fact that no
  operation answers false.

Inputs the real harness reads from its environment are parameters here:

- the three configured URLs (`Config`);
- the browser's answer to each step (`Driver.pending`);
- the rendered banner (`Driver.banner`).

Once the scripted answers run out, every further step succeeds.

`is_login_error_message` first waits for the error banner to become
visible (test_login.py:260-264) and only then looks the error type up
(test_login.py:272-275). So an unknown type is reported only after a banner
has appeared; if the banner never appears, the caller sees the wait's
`TimeoutException` unwrapped. This is stated by
`PageProperties.UnknownTypeReportedAfterBanner`.

## Model

| member | source | states |
|---|---|---|
| LoginErrors.Join | test_login.py:40 | `", ".join(...)` yields a string as long as its parts plus one separator between each neighbouring pair |
| LoginErrors.JoinEmbedsParts | test_login.py:40 | in the joined list of types, each type appears unchanged at its offset |
| LoginErrors.JoinSeparatesParts | test_login.py:40 | in the joined list of types, every type but the last is followed by the separator |
| LoginErrors.Message | test_login.py:21-79 | the text each exception's `__str__` returns; a Selenium exception that reaches the caller unwrapped shows its own text, and each wrapper's text is strictly longer than its cause's |
| LoginErrors.MismatchMessageDecodes | test_login.py:21-27 | the mismatch text is the fixed prefix, then the observed text, then `". Expected: "`, then the expected literal; both texts can be read back at fixed offsets |
| LoginErrors.TypeNotFoundMessageListsTypes | test_login.py:37-43 | the type-not-found text carries the requested type at the end of its prefix, every valid type at its offset in the joined list, and a final `"."` |
| LoginErrors.TypeNotFoundMessageWording | test_login.py:37-43 | the type-not-found text opens with "The error message type is not found: ", has ". Use one of the following types: " right after the requested type, and a `", "` right after every listed type but the last |
| LoginErrors.WrapperMessagesEmbedCause | test_login.py:52-79 | the login, logout and login-status messages each begin with their fixed prefix, which is followed by exactly the cause's text; the login-status message also ends with `"."`; each length is given |
| LoginErrors.WrapperKindsAreDistinguishable | test_login.py:52-79 | whatever the causes, a login, a logout and a login-status failure never produce the same message |
| Classifier.Keys | test_login.py:275 | the listed types are the table's keys, one per row, in table order |
| Classifier.Get | test_login.py:272 | dictionary lookup: a value exists exactly when the key is in the table, and it is the value of the key's first row |
| Classifier.FalsinessRejectsExactlyUnknown | test_login.py:274 | the `not expected_error_message` test after the lookup (Python falsiness: `None` or the empty string) holds exactly for the types outside the table |
| Classifier.Classify | test_login.py:272-280 | classification never answers false (only true or an exception), and it answers true only for a displayed banner |
| Classifier.LookupIsTotalOnKnownTypes | test_login.py:266-272 | the table is defined on exactly `email`, `password` and `empty`; the first two map to "We don't recognize that email and/or password", `empty` maps to "Please fill in all of the required fields", and each known value is non-empty, so the falsiness test passes it |
| Classifier.KnownTypesInOrder | test_login.py:266-275 | the valid types are listed as `email, password, empty`, in that order |
| Classifier.ClassifyAcceptsExactly | test_login.py:277-278 | the result is true if and only if the type is known, the banner is displayed and its text equals the type's literal exactly |
| Classifier.ClassifyRejectsUnknownType | test_login.py:272-275 | any other type raises `ErrorTypeNotFound` carrying that type and the three valid types in the order email, password, empty |
| Classifier.UnknownTypeMessage | test_login.py:37-43 | the text of that exception is "The error message type is not found: T. Use one of the following types: email, password, empty." |
| Classifier.ClassifyReportsMismatch | test_login.py:277-280 | for a known type, any other banner raises `LoginErrorMessageMismatch(observed text, expected literal)`; its message is the prefix, the observed text, ". Expected: " and the expected literal |
| Classifier.HiddenBannerIsMismatch | test_login.py:277-280 | a banner that is not displayed is a mismatch even when its text is right |
| Classifier.ProperPrefixIsMismatch | test_login.py:277-280 | a displayed banner showing a proper prefix of the literal is a mismatch: there is no prefix matching |
| Steps.RunSteps | test_login.py:241-247 | the `try` block as a function: a non-empty block runs at least one step and no more than it has, and a block that raised nothing ran every step |
| Steps.RunStepsShape | test_login.py:241-247 | a block performs a prefix of its steps, in order, one answer per step; it fails exactly when a step failed, and then with the first failure, at the last step performed |
| Steps.RunStepsSucceedsIff | test_login.py:241-247 | a block completes if and only if every one of its steps succeeds |
| Pages.LoginPage.Login | test_login.py:241-247 | performs title wait, email, password and click one by one; the first failure is returned as `LoginError` and ends the method; result, trace and answers agree with `LoginSpec` |
| Pages.LoginPage.IsLoginErrorMessage | test_login.py:260-280 | waits for the banner (a failure propagates unwrapped), then classifies the rendered banner; result, trace and answers agree with `IsLoginErrorMessageSpec` |
| Pages.LoginPage.LoginAndCheckError | test_login.py:295-301 | opens the login URL (unguarded), calls `Login`, then `IsLoginErrorMessage`; result, trace and answers agree with `LoginAndCheckErrorSpec` |
| Pages.HomePage.IsLoggedIn | test_login.py:321-328 | waits for the logout control; a failure becomes `CheckLoginStatusError`; agrees with `IsLoggedInSpec` |
| Pages.HomePage.Logout | test_login.py:342-348 | opens the logout URL, then waits for the landing URL; the first failure becomes `LogoutError`; agrees with `LogoutSpec` |
| PageProperties.LoginRunsStepsInOrder | test_login.py:241-245 | login always starts with the "Log In" title wait and performs a prefix of the four steps in source order |
| PageProperties.LoginSucceedsIff | test_login.py:241-247 | login completes if and only if all four steps succeed, and then all four were performed |
| PageProperties.LoginStopsAtFirstFailure | test_login.py:241-247 | if step k is the first to fail, login raises `LoginError` with that step's exception and performs exactly steps 0..k |
| PageProperties.LoginOnlyRaisesLoginError | test_login.py:246-247 | every exception login raises is a `LoginError` wrapping an exception one of its steps received |
| PageProperties.CheckWaitsForBannerFirst | test_login.py:260-280 | the classifier always performs the banner wait first, whatever the type; a failed wait propagates unwrapped, otherwise the result is `Classify` of the banner |
| PageProperties.UnknownTypeReportedAfterBanner | test_login.py:260-275 | an unknown type yields `ErrorTypeNotFound` only once the banner has appeared; otherwise the wait's exception reaches the caller |
| PageProperties.CheckNeverAnswersFalse | test_login.py:277-280 | the classifier operation never answers false; it answers true if and only if the wait succeeds and the banner is displayed with exactly the type's literal |
| PageProperties.LoginAndCheckErrorNavigatesFirst | test_login.py:295 | the first step is always loading the login URL; if that fails, its exception propagates unwrapped and nothing else runs |
| PageProperties.LoginFailureSkipsClassifier | test_login.py:298-301 | a `LoginError` from login is the result as raised, and the banner wait never runs |
| PageProperties.LoginAndCheckErrorReturnsClassifier | test_login.py:295-301 | when navigation and login succeed, the result is exactly the classifier's, after the URL load, the four login steps and the banner wait |
| PageProperties.LoginAndCheckErrorNeverAnswersFalse | test_login.py:295-301 | the combined operation never answers false |
| PageProperties.EmptyCredentialsScenario | test_login.py:438-441 | the empty-credentials test passes when every step succeeds and the banner shows "Please fill in all of the required fields" |
| PageProperties.IsLoggedInNeverSwallowsFailure | test_login.py:321-328 | the login-status check answers true exactly when the wait succeeds; otherwise it raises `CheckLoginStatusError` with the wait's exception, never false |
| PageProperties.LogoutNeverSwallowsFailure | test_login.py:342-348 | logout performs a prefix of (load the logout URL, wait for the landing URL), one answer each, and waits only if the load succeeded; it answers true exactly when both steps succeed; otherwise it raises `LogoutError` with the exception of the last step performed, every earlier one having succeeded; if the load fails, only the load runs and its exception is the one wrapped; never false |

## Left out

- `LandingPage` (test_login.py:175-198): two clicks and a title wait, with no error handling of its own.
- The pytest fixtures: driver creation and `quit`, credential loading from the environment, and reading `config.ini`. They are environment plumbing; the URLs are the `Config` parameter.
- The `TestLogin` scenarios need a live site. Only the empty-credentials scenario appears, as `PageProperties.EmptyCredentialsScenario`.
- Selenium itself is not modelled: polling in `WebDriverWait`, the expected conditions, element lookup, typing, clicking and page loads. Each is one `Step` whose answer is an input. URL matching by regular expression is not modelled either: the wait's success or failure is the input.
- Reading the banner's displayed flag and text (`error_msg.is_displayed()` and `error_msg.text`, test_login.py:277-280) cannot fail in the model: `Driver.banner` is read directly. In Selenium these calls can raise (for example on a stale element), and `is_login_error_message` would pass such an exception to its caller unwrapped; that failure is not modelled.
- The string form of a Selenium exception is Selenium's own. It is represented only by `Cause.text`.
- The `logging.error` call inside each `__str__` is left out. `Message` models only the returned string.
- Whether `TimeoutException` is a subclass of `WebDriverException` is not visible in the code. Both are caught together wherever either is caught, so the model does not need to distinguish them.
- Pages.LoginPage.IsLoginErrorMessage: reads the banner once. The source reads `error_msg.text` twice, once to compare and once to build the mismatch exception, and the page could change between the two reads.
- Pages.HomePage.IsLoggedIn: returns `true` where the source returns the located element. The harness only tests its truth.
- Pages.HomePage.Logout: returns `true`, which is the value Selenium's URL wait yields on success.
